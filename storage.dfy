/** The older top-gainers ranking kept in storage.py: it looks back a number of
    index rows (not trading days) and ranks by absolute close difference. */
module Storage {
  import opened MarketData
  import Ranking

  /** A frame as storage.py reads it: the row labels of its index, the symbols
      of the first column level, and each symbol's close column by row. */
  datatype Frame = Frame(index: seq<int>, levels: seq<string>, closes: map<string, seq<real>>)

  /** The symbols to rank: the given list, or the frame's first column level. */
  function Universe(f: Frame, symbols: Option<seq<string>>): (r: seq<string>)
    ensures symbols.None? ==> r == f.levels
    ensures symbols.Some? ==> r == symbols.value
  {
    if symbols.None? then f.levels else symbols.value
  }

  /** `data.index.get_loc(input_date)` on an index without repeated labels. */
  function RowOf(f: Frame, stamp: int): (r: Option<nat>)
    requires Distinct(f.index)
    ensures r.Some? <==> stamp in f.index
    ensures r.Some? ==> r.value < |f.index| && f.index[r.value] == stamp
  {
    if stamp in f.index then Some(IndexOf(f.index, stamp)) else None
  }

  /** The entry appended for `sym`, or None when reading either close raises
      (no such column, or a row past its end) and the symbol is skipped. */
  function GainAt(f: Frame, sym: string, idx: nat, lookbackIdx: nat): (r: Option<Ranking.Gainer>)
    requires lookbackIdx <= idx
    ensures r.Some? <==> sym in f.closes && idx < |f.closes[sym]|
    ensures r.Some? ==> r.value.symbol == sym
    ensures r.Some? ==> (r.value.gain > 0.0 <==> f.closes[sym][idx] > f.closes[sym][lookbackIdx])
  {
    if sym in f.closes && idx < |f.closes[sym]| then
      var col := f.closes[sym];
      Some(Ranking.Gainer(sym, col[idx] - col[lookbackIdx]))
    else None
  }

  /** The `gainers` list built over `syms`, in the order of `syms`. */
  function Gains(f: Frame, syms: seq<string>, idx: nat, lookbackIdx: nat): (r: seq<Ranking.Gainer>)
    requires lookbackIdx <= idx
    ensures forall g :: g in r ==> g.symbol in syms && GainAt(f, g.symbol, idx, lookbackIdx) == Some(g)
    ensures forall sym :: sym in syms && GainAt(f, sym, idx, lookbackIdx).Some? ==>
      GainAt(f, sym, idx, lookbackIdx).value in r
    decreases |syms|
  {
    if syms == [] then []
    else
      var init, last := syms[..|syms| - 1], syms[|syms| - 1];
      assert syms == init + [last];
      var g := GainAt(f, last, idx, lookbackIdx);
      Gains(f, init, idx, lookbackIdx) + (if g.Some? then [g.value] else [])
  }

  /** The rows `get_top_gainers` compares: the row of `stamp` and the row
      `top_gainers_lookback_days` before it, or None when the stamp is absent
      or too few rows precede it. */
  function Rows(f: Frame, cfg: Config, stamp: int): (r: Option<(nat, nat)>)
    requires Distinct(f.index)
    ensures r.Some? <==> stamp in f.index && IndexOf(f.index, stamp) >= cfg.topGainersLookbackDays
    ensures r.Some? ==>
      && r.value.0 < |f.index| && f.index[r.value.0] == stamp
      && r.value.1 + cfg.topGainersLookbackDays == r.value.0
  {
    match RowOf(f, stamp)
    case None => None
    case Some(idx) =>
      if idx < cfg.topGainersLookbackDays then None
      else Some((idx, idx - cfg.topGainersLookbackDays))
  }

  /** The `gainers` list after the stable sort by descending gain. */
  function Ranked(f: Frame, symbols: Option<seq<string>>, idx: nat, lookbackIdx: nat): (r: seq<Ranking.Gainer>)
    requires lookbackIdx <= idx
    ensures multiset(r) == multiset(Gains(f, Universe(f, symbols), idx, lookbackIdx))
  {
    Ranking.SortByGain(Gains(f, Universe(f, symbols), idx, lookbackIdx))
  }

  /** `get_top_gainers` of storage.py: the first `number_of_top_gainers`
      symbols by absolute close gain over the lookback rows. */
  function TopGainers(f: Frame, cfg: Config, stamp: int, symbols: Option<seq<string>>): (r: seq<string>)
    requires Distinct(f.index)
    ensures |r| <= cfg.numberOfTopGainers
    ensures Rows(f, cfg, stamp).None? ==> r == []
    ensures forall sym :: sym in r ==> sym in Universe(f, symbols) && sym in f.closes
  {
    match Rows(f, cfg, stamp)
    case None => []
    case Some((idx, lookbackIdx)) =>
      var ranked := Ranked(f, symbols, idx, lookbackIdx);
      var top := ranked[..Min(cfg.numberOfTopGainers, |ranked|)];
      RankedEntries(f, symbols, idx, lookbackIdx);
      assert forall g :: g in top ==> g in ranked;
      Ranking.SymbolsOf(top)
  }

  /** `get_top_gainers` as storage.py runs it: one pass over the symbols, a
      stable sort and a cut. */
  method GetTopGainers(f: Frame, cfg: Config, stamp: int, symbols: Option<seq<string>>) returns (top: seq<string>)
    requires Distinct(f.index)
    ensures top == TopGainers(f, cfg, stamp, symbols)
  {
    var syms := if symbols.None? then f.levels else symbols.value;
    if stamp !in f.index {
      assert Rows(f, cfg, stamp).None?;
      return [];
    }
    var idx := IndexOf(f.index, stamp);
    var lookbackIdx := idx - cfg.topGainersLookbackDays;
    if lookbackIdx < 0 {
      assert Rows(f, cfg, stamp).None?;
      return [];
    }
    assert Rows(f, cfg, stamp) == Some((idx, lookbackIdx));
    var gainers := CollectGains(f, syms, idx, lookbackIdx);
    gainers := Ranking.SortByGain(gainers);
    assert gainers == Ranked(f, symbols, idx, lookbackIdx);
    top := Ranking.SymbolsOf(gainers[..Min(cfg.numberOfTopGainers, |gainers|)]);
    TopGainersIsCut(f, cfg, stamp, symbols);
  }

  /** The loop of `get_top_gainers`: appends each readable symbol's gain, in order. */
  method CollectGains(f: Frame, syms: seq<string>, idx: nat, lookbackIdx: nat) returns (gainers: seq<Ranking.Gainer>)
    requires lookbackIdx <= idx
    ensures gainers == Gains(f, syms, idx, lookbackIdx)
  {
    gainers := [];
    for i := 0 to |syms|
      invariant gainers == Gains(f, syms[..i], idx, lookbackIdx)
    {
      assert syms[..i + 1][..i] == syms[..i];
      var sym := syms[i];
      if sym in f.closes && idx < |f.closes[sym]| {
        var gain := f.closes[sym][idx] - f.closes[sym][lookbackIdx];
        gainers := gainers + [Ranking.Gainer(sym, gain)];
      }
    }
    assert syms[..|syms|] == syms;
  }

  // ---------------------------------------------------------------------------
  // Properties of the ranking

  lemma RankedEntries(f: Frame, symbols: Option<seq<string>>, idx: nat, lookbackIdx: nat)
    requires lookbackIdx <= idx
    ensures forall g :: g in Ranked(f, symbols, idx, lookbackIdx) ==>
      g.symbol in Universe(f, symbols) && GainAt(f, g.symbol, idx, lookbackIdx) == Some(g)
  {
    var gains := Gains(f, Universe(f, symbols), idx, lookbackIdx);
    forall g | g in Ranked(f, symbols, idx, lookbackIdx)
      ensures g.symbol in Universe(f, symbols) && GainAt(f, g.symbol, idx, lookbackIdx) == Some(g)
    {
      assert g in multiset(gains);
    }
  }

  lemma {:induction false} GainsInOrder(f: Frame, universe: seq<string>, n: nat, idx: nat, lookbackIdx: nat)
    requires Distinct(universe) && n <= |universe| && lookbackIdx <= idx
    ensures Ranking.InOrderOf(Gains(f, universe[..n], idx, lookbackIdx), universe)
    ensures forall g :: g in Gains(f, universe[..n], idx, lookbackIdx) ==> Ranking.SymbolIndex(universe, g.symbol) < n
    decreases n
  {
    if n > 0 {
      var prefix := universe[..n];
      assert prefix[..n - 1] == universe[..n - 1];
      GainsInOrder(f, universe, n - 1, idx, lookbackIdx);
      IndexOfDistinct(universe, n - 1);
      var prev := Gains(f, universe[..n - 1], idx, lookbackIdx);
      var g := GainAt(f, universe[n - 1], idx, lookbackIdx);
      assert Gains(f, prefix, idx, lookbackIdx) == prev + (if g.Some? then [g.value] else []);
      if g.Some? {
        assert Ranking.SymbolIndex(universe, g.value.symbol) == n - 1;
        assert forall k :: 0 <= k < |prev| ==> prev[k] in prev;
        Ranking.SnocInOrder(prev, g.value, universe);
      }
    }
  }

  lemma RankedIsRanked(f: Frame, symbols: Option<seq<string>>, idx: nat, lookbackIdx: nat)
    requires lookbackIdx <= idx && Distinct(Universe(f, symbols))
    ensures Ranking.RankedIn(Ranked(f, symbols, idx, lookbackIdx), Universe(f, symbols))
  {
    var u := Universe(f, symbols);
    GainsInOrder(f, u, |u|, idx, lookbackIdx);
    assert u[..|u|] == u;
    Ranking.SortIsRankedAndStable(Gains(f, u, idx, lookbackIdx), u);
  }

  lemma TopGainersIsCut(f: Frame, cfg: Config, stamp: int, symbols: Option<seq<string>>)
    requires Distinct(f.index) && Rows(f, cfg, stamp).Some?
    ensures var (idx, lookbackIdx) := Rows(f, cfg, stamp).value;
      var ranked := Ranked(f, symbols, idx, lookbackIdx);
      TopGainers(f, cfg, stamp, symbols) == Ranking.SymbolsOf(ranked[..Min(cfg.numberOfTopGainers, |ranked|)])
  {
  }

  /** The absolute close gain of a ranked symbol. */
  function GainFor(f: Frame, sym: string, idx: nat, lookbackIdx: nat): real
    requires lookbackIdx <= idx && GainAt(f, sym, idx, lookbackIdx).Some?
  {
    GainAt(f, sym, idx, lookbackIdx).value.gain
  }

  /** No symbol twice, every one readable on both rows, absolute gains
      non-increasing, ties in the order of the symbols ranked. */
  lemma TopGainersOrdered(f: Frame, cfg: Config, stamp: int, symbols: Option<seq<string>>)
    requires Distinct(f.index) && Distinct(Universe(f, symbols)) && Rows(f, cfg, stamp).Some?
    ensures var r := TopGainers(f, cfg, stamp, symbols);
      var (idx, lookbackIdx) := Rows(f, cfg, stamp).value;
      && Distinct(r)
      && (forall i :: 0 <= i < |r| ==> GainAt(f, r[i], idx, lookbackIdx).Some?)
      && forall i, j :: 0 <= i < j < |r| ==>
           GainFor(f, r[i], idx, lookbackIdx) > GainFor(f, r[j], idx, lookbackIdx)
           || (GainFor(f, r[i], idx, lookbackIdx) == GainFor(f, r[j], idx, lookbackIdx)
               && Ranking.SymbolIndex(Universe(f, symbols), r[i]) < Ranking.SymbolIndex(Universe(f, symbols), r[j]))
  {
    var (idx, lookbackIdx) := Rows(f, cfg, stamp).value;
    var u := Universe(f, symbols);
    var ranked := Ranked(f, symbols, idx, lookbackIdx);
    RankedIsRanked(f, symbols, idx, lookbackIdx);
    RankedEntries(f, symbols, idx, lookbackIdx);
    TopGainersIsCut(f, cfg, stamp, symbols);
    var r := TopGainers(f, cfg, stamp, symbols);
    forall i | 0 <= i < |r| ensures GainAt(f, r[i], idx, lookbackIdx) == Some(ranked[i]) {
      assert ranked[i] in ranked;
    }
    forall i, j | 0 <= i < j < |r|
      ensures r[i] != r[j]
      ensures GainFor(f, r[i], idx, lookbackIdx) > GainFor(f, r[j], idx, lookbackIdx)
           || (GainFor(f, r[i], idx, lookbackIdx) == GainFor(f, r[j], idx, lookbackIdx)
               && Ranking.SymbolIndex(u, r[i]) < Ranking.SymbolIndex(u, r[j]))
    {
      assert Ranking.Precedes(ranked[i], ranked[j], u);
    }
  }

  /** When a readable symbol is left out, the list is full and every symbol
      kept gains at least as much. */
  lemma TopGainersKeepsBest(f: Frame, cfg: Config, stamp: int, symbols: Option<seq<string>>, sym: string)
    requires Distinct(f.index) && Distinct(Universe(f, symbols)) && Rows(f, cfg, stamp).Some?
    requires sym in Universe(f, symbols)
    requires GainAt(f, sym, Rows(f, cfg, stamp).value.0, Rows(f, cfg, stamp).value.1).Some?
    requires sym !in TopGainers(f, cfg, stamp, symbols)
    ensures |TopGainers(f, cfg, stamp, symbols)| == cfg.numberOfTopGainers
    ensures forall i :: 0 <= i < |TopGainers(f, cfg, stamp, symbols)| ==>
      var x, (idx, lookbackIdx) := TopGainers(f, cfg, stamp, symbols)[i], Rows(f, cfg, stamp).value;
      GainAt(f, x, idx, lookbackIdx).Some? && GainFor(f, x, idx, lookbackIdx) >= GainFor(f, sym, idx, lookbackIdx)
  {
    var (idx, lookbackIdx) := Rows(f, cfg, stamp).value;
    var ranked := Ranked(f, symbols, idx, lookbackIdx);
    var r := TopGainers(f, cfg, stamp, symbols);
    TopGainersIsCut(f, cfg, stamp, symbols);
    var g := GainAt(f, sym, idx, lookbackIdx).value;
    assert g in Gains(f, Universe(f, symbols), idx, lookbackIdx);
    assert g in multiset(ranked);
    var p :| 0 <= p < |ranked| && ranked[p] == g;
    RankedIsRanked(f, symbols, idx, lookbackIdx);
    Ranking.CutKeepsBest(ranked, Universe(f, symbols), cfg.numberOfTopGainers, p);
    RankedEntries(f, symbols, idx, lookbackIdx);
    forall i | 0 <= i < |r|
      ensures GainAt(f, r[i], idx, lookbackIdx).Some? && GainFor(f, r[i], idx, lookbackIdx) >= g.gain
    {
      assert r[i] == ranked[i].symbol;
      assert ranked[i] in ranked;
    }
  }

  /** The lookback counts index rows: on an hourly index, five rows back is
      five bars back, which may lie on the same calendar day. */
  lemma LookbackCountsRows()
    ensures var f := Frame([100, 101, 102, 103, 104, 105], ["A"], map["A" := [1.0, 2.0, 3.0, 4.0, 5.0, 9.0]]);
      && Rows(f, DefaultConfig, 105) == Some((5, 0))
      && Rows(f, DefaultConfig, 104) == None
      && GainAt(f, "A", 5, 0) == Some(Ranking.Gainer("A", 8.0))
  {
    var f := Frame([100, 101, 102, 103, 104, 105], ["A"], map["A" := [1.0, 2.0, 3.0, 4.0, 5.0, 9.0]]);
    assert IndexOf(f.index, 105) == 5;
    assert IndexOf(f.index, 104) == 4;
  }

  /** The gain is an absolute price difference: a symbol going from 100 to
      105 gains more here than one going from 10 to 12, although the second
      gains more in the percentage terms main.py ranks by. */
  lemma AbsoluteGainNotPercentage()
    ensures var f := Frame([0, 1], ["A", "B"], map["A" := [10.0, 12.0], "B" := [100.0, 105.0]]);
      && GainAt(f, "A", 1, 0) == Some(Ranking.Gainer("A", 2.0))
      && GainAt(f, "B", 1, 0) == Some(Ranking.Gainer("B", 5.0))
      && Ranking.PctGain(12.0, 10.0) > Ranking.PctGain(105.0, 100.0)
  {
  }
}

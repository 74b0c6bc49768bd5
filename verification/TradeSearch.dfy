/**
 One stock's search for trades on one day: detection plus simulated exit, the per-stock
 limits, and the loops that repeat it.  The detector is any function whose retrace index
 lies inside the list it was given.
 */
module TradeSearch {
  import opened Arithmetic
  import opened Wrappers
  import opened Candles
  import opened Trades
  import opened SignalEngine
  import opened ExitSimulation

  type Detector = d: (seq<Candle>, SignalConfig) -> Option<Detected> |
    forall cs, cfg :: d(cs, cfg).Some? ==> d(cs, cfg).value.idx < |cs|
    witness (cs: seq<Candle>, cfg: SignalConfig) => None

  datatype Config = Config(
    rrRatio: real, orStart: Time, orEnd: Time, entryCutoff: Time, exitRules: ExitRules,
    fvgExpiryCandles: nat, minOrBreakoutPct: real,
    maxDailyLossPct: real, maxDailyTrades: nat, longOnly: bool)

  function SignalConfigOf(cfg: Config, orHigh: int, orLow: int, requireOrBreakout: bool): SignalConfig {
    SignalConfig(orHigh, orLow, cfg.fvgExpiryCandles, cfg.entryCutoff, requireOrBreakout,
                 cfg.minOrBreakoutPct, cfg.longOnly, None)
  }

  ghost predicate TimeOrdered(cs: seq<Candle>) {
    forall i, j :: 0 <= i < j < |cs| ==> cs[i].time <= cs[j].time
  }

  ghost predicate StrictlyOrdered(cs: seq<Candle>) {
    forall i, j :: 0 <= i < j < |cs| ==> cs[i].time < cs[j].time
  }

  // ---------------------------------------------------------------------------
  // Positions in a candle list
  // ---------------------------------------------------------------------------

  /** Index of the first candle at or after `t`, or the length. */
  function FirstAtOrAfter(cs: seq<Candle>, t: Time): (k: nat)
    ensures k <= |cs|
    ensures forall i :: 0 <= i < k ==> cs[i].time < t
    ensures k < |cs| ==> cs[k].time >= t
  {
    if cs == [] || cs[0].time >= t then 0 else 1 + FirstAtOrAfter(cs[1..], t)
  }

  /** Index of the first candle after `t`, or the length. */
  function FirstAfter(cs: seq<Candle>, t: Time): (k: nat)
    ensures k <= |cs|
    ensures forall i :: 0 <= i < k ==> cs[i].time <= t
    ensures k < |cs| ==> cs[k].time > t
  {
    if cs == [] || cs[0].time > t then 0 else 1 + FirstAfter(cs[1..], t)
  }

  // ---------------------------------------------------------------------------
  // One scan
  // ---------------------------------------------------------------------------

  datatype Scan = Scan(trade: Option<Trade>, exitIdx: nat, side: Option<Side>)

  function EntryOf(d: Detected, cfg: Config, time: Time): Entry {
    var price := d.gap.MidPrice();
    var stop := d.gap.stopLoss;
    Entry(d.intent.side, price, stop, TargetOf(d.intent.side, price, Abs(price - stop), cfg.rrRatio), time)
  }

  function ScanAndTrade(detect: Detector, cfg: Config, cs: seq<Candle>, orHigh: int, orLow: int,
                        requireOrBreakout: bool): (r: Scan)
    ensures r.exitIdx <= |cs|
  {
    match detect(cs, SignalConfigOf(cfg, orHigh, orLow, requireOrBreakout))
    case None => Scan(None, |cs|, None)
    case Some(d) =>
      var trade := Exit(EntryOf(d, cfg, cs[d.idx].time), cfg.exitRules, cs[d.idx + 1..]);
      Scan(trade, if trade.Some? then FirstAtOrAfter(cs, trade.value.exitTime) else |cs|, Some(d.intent.side))
  }

  /**
   A scan's trade enters on one candle and leaves on a later one; the reported index is that
   of the first candle at the exit time.  No trade means that everything was searched.
   */
  lemma ScanContract(detect: Detector, cfg: Config, cs: seq<Candle>, orHigh: int, orLow: int, requireOr: bool)
    returns (entry: nat, exit: nat)
    ensures var r := ScanAndTrade(detect, cfg, cs, orHigh, orLow, requireOr);
            var d := detect(cs, SignalConfigOf(cfg, orHigh, orLow, requireOr));
            && (r.trade == None <==> d == None || d.value.idx == |cs| - 1)
            && (r.trade == None ==> r.exitIdx == |cs|)
            && (r.trade.Some? ==>
                  && entry == d.value.idx < exit < |cs|
                  && r.trade.value.entryTime == cs[entry].time
                  && r.trade.value.exitTime == cs[exit].time
                  && r.exitIdx <= exit && cs[r.exitIdx].time >= cs[exit].time
                  && (forall j :: entry < j < exit ==> cs[j].time < cfg.exitRules.forceExit))
  {
    hide Exit, ExitIndex, FirstAtOrAfter, SignalConfigOf, TargetOf, Abs;
    entry, exit := 0, 0;
    var d := detect(cs, SignalConfigOf(cfg, orHigh, orLow, requireOr));
    if d.Some? {
      entry := d.value.idx;
      var e, rest := EntryOf(d.value, cfg, cs[entry].time), cs[entry + 1..];
      ExitContract(e, cfg.exitRules, rest);
      if rest != [] {
        exit := entry + 1 + ExitIndex(e, cfg.exitRules, rest);
        forall j | entry < j < exit ensures cs[j].time < cfg.exitRules.forceExit {
          assert cs[j] == rest[j - entry - 1];
        }
      }
    }
  }

  /**
   The prices of a scanned trade: it enters in the middle of the detected gap, rounded toward
   zero, with the gap's stop, and its target lies the ratio times that risk, cut to a whole
   price, beyond the entry.
   */
  lemma ScanPrices(detect: Detector, cfg: Config, cs: seq<Candle>, orHigh: int, orLow: int, requireOr: bool)
    ensures var r := ScanAndTrade(detect, cfg, cs, orHigh, orLow, requireOr);
            var d := detect(cs, SignalConfig(orHigh, orLow, cfg.fvgExpiryCandles, cfg.entryCutoff, requireOr,
                                             cfg.minOrBreakoutPct, cfg.longOnly, None));
            && (r.side == if d.Some? then Some(d.value.intent.side) else None)
            && (r.trade.Some? ==>
                  && d.Some?
                  && r.trade.value.side == d.value.intent.side
                  && r.trade.value.stopLoss == d.value.gap.stopLoss
                  && var t, edges := r.trade.value, d.value.gap.top + d.value.gap.bottom;
                     ScannedPrices(t.side, t.entryPrice, t.stopLoss, t.takeProfit, edges, cfg.rrRatio))
  {
    hide Exit, FirstAtOrAfter, EntryOf, ScannedPrices;
    var d := detect(cs, SignalConfigOf(cfg, orHigh, orLow, requireOr));
    if d.Some? {
      var e := EntryOf(d.value, cfg, cs[d.value.idx].time);
      EntryPrices(d.value, cfg, cs[d.value.idx].time);
      ExitContract(e, cfg.exitRules, cs[d.value.idx + 1..]);
    }
  }

  lemma EntryPrices(d: Detected, cfg: Config, time: Time)
    ensures var e := EntryOf(d, cfg, time);
            && ScannedPrices(e.side, e.price, e.stopLoss, e.takeProfit, d.gap.top + d.gap.bottom, cfg.rrRatio)
            && e.side == d.intent.side && e.stopLoss == d.gap.stopLoss && e.time == time
  {
    hide Abs, Truncate;
  }

  predicate ScannedPrices(side: Side, entry: int, stop: int, target: int, edges: int, rr: real) {
    && (edges >= 0 ==> 2 * entry <= edges <= 2 * entry + 1)
    && (edges <= 0 ==> 2 * entry - 1 <= edges <= 2 * entry)
    && target == if side == Long then entry + Truncate(Abs(entry - stop) as real * rr)
                 else entry - Truncate(Abs(entry - stop) as real * rr)
  }

  /** A scanned trade that leaves at its target realises the ratio up to one price unit of the risk. */
  lemma ScannedTradeRealises(detect: Detector, cfg: Config, cs: seq<Candle>, orHigh: int, orLow: int)
    requires cfg.rrRatio >= 0.0
    requires var r := ScanAndTrade(detect, cfg, cs, orHigh, orLow, true);
             && r.trade.Some? && r.trade.value.exitPrice == r.trade.value.takeProfit
             && r.trade.value.entryPrice != r.trade.value.stopLoss
             && (r.trade.value.stopLoss < r.trade.value.entryPrice <==> r.trade.value.side == Long)
    ensures var t := ScanAndTrade(detect, cfg, cs, orHigh, orLow, true).trade.value;
            cfg.rrRatio - 1.0 / Abs(t.entryPrice - t.stopLoss) as real < t.RealizedRr() <= cfg.rrRatio
  {
    hide ScanAndTrade, Truncate, Trade.RealizedRr;
    ScanPrices(detect, cfg, cs, orHigh, orLow, true);
    RealizedAtTargetAndStop(ScanAndTrade(detect, cfg, cs, orHigh, orLow, true).trade.value, cfg.rrRatio);
  }

  // ---------------------------------------------------------------------------
  // The state of one stock
  // ---------------------------------------------------------------------------

  /** A stock prepared for the day: its rules, its candles after the opening range, and that range. */
  datatype Prepared = Prepared(cfg: Config, candles: seq<Candle>, orHigh: int, orLow: int)

  datatype View = View(searchFrom: nat, tradeCount: nat, cumulativePnl: real, confirmedSide: Option<Side>)

  const START := View(0, 0, 0.0, None)

  class StockState {
    var searchFrom: nat
    var tradeCount: nat
    var cumulativePnl: real
    var confirmedSide: Option<Side>

    function Now(): View
      reads this
    {
      View(searchFrom, tradeCount, cumulativePnl, confirmedSide)
    }

    constructor ()
      ensures Now() == START
    {
      searchFrom, tradeCount, cumulativePnl, confirmedSide := 0, 0, 0.0, None;
    }
  }

  predicate LimitsReached(p: Prepared, v: View) {
    v.tradeCount >= p.cfg.maxDailyTrades || v.cumulativePnl <= p.cfg.maxDailyLossPct
  }

  predicate Rejects(v: View, t: Trade) {
    v.confirmedSide.Some? && t.side != v.confirmedSide.value
  }

  function Accepted(v: View, t: Trade, exitIdx: nat): View {
    View(v.searchFrom + exitIdx, v.tradeCount + 1, v.cumulativePnl + t.PnlPct(),
         if t.PnlPct() > 0.0 then Some(t.side) else None)
  }

  method AcceptTrade(t: Trade, s: StockState, exitIdx: nat)
    modifies s
    ensures s.Now() == Accepted(old(s.Now()), t, exitIdx)
  {
    var pnl := t.PnlPct();
    s.tradeCount := s.tradeCount + 1;
    s.cumulativePnl := s.cumulativePnl + pnl;
    s.confirmedSide := if pnl > 0.0 then Some(t.side) else None;
    s.searchFrom := s.searchFrom + exitIdx;
  }

  function SyncedTo(v: View, cs: seq<Candle>, target: Time): View {
    v.(searchFrom := Max(v.searchFrom, FirstAfter(cs, target)))
  }

  method SyncSearchTo(s: StockState, candles: seq<Candle>, target: Time)
    modifies s`searchFrom
    ensures s.Now() == SyncedTo(old(s.Now()), candles, target)
  {
    var newPos := FirstAfter(candles, target);
    if newPos > s.searchFrom {
      s.searchFrom := newPos;
    }
  }

  /**
   The search moves to the first candle after the target time, to the end if there is none, and
   never back: the new position is the larger of the old one and that candle's.
   */
  lemma SyncIsExact(v: View, cs: seq<Candle>, target: Time) returns (k: nat)
    ensures k <= |cs|
    ensures forall i :: 0 <= i < k ==> cs[i].time <= target
    ensures k < |cs| ==> cs[k].time > target
    ensures var r := SyncedTo(v, cs, target);
            && r == v.(searchFrom := r.searchFrom)
            && r.searchFrom >= v.searchFrom && r.searchFrom >= k
            && (r.searchFrom == v.searchFrom || r.searchFrom == k)
  {
    k := FirstAfter(cs, target);
  }

  /** On time-ordered candles none after the target time is passed over. */
  lemma SyncPassesOverNothing(v: View, cs: seq<Candle>, target: Time, i: nat)
    requires TimeOrdered(cs) && v.searchFrom <= i < |cs|
    ensures SyncedTo(v, cs, target).searchFrom <= i <==> cs[i].time > target
  {
    var k := SyncIsExact(v, cs, target);
    if i < k {
      assert cs[i].time <= target;
    } else if k < i {
      assert cs[k].time <= cs[i].time;
    }
  }

  function ScanFromView(detect: Detector, p: Prepared, v: View): Scan
    requires v.searchFrom <= |p.candles|
  {
    ScanAndTrade(detect, p.cfg, p.candles[v.searchFrom..], p.orHigh, p.orLow, true)
  }

  // ---------------------------------------------------------------------------
  // The nested search
  // ---------------------------------------------------------------------------

  /** What the search found, with the relative exit index, and where it now stands. */
  datatype Candidate = Candidate(found: Option<(Trade, nat)>, view: View)

  function NextCandidate(detect: Detector, p: Prepared, v: View): (r: Candidate)
    ensures r.view == v.(searchFrom := r.view.searchFrom)
    ensures r.view.searchFrom >= v.searchFrom
    decreases |p.candles| - v.searchFrom
  {
    if v.searchFrom >= |p.candles| then Candidate(None, v)
    else
      var scan := ScanFromView(detect, p, v);
      if scan.trade.None? then Candidate(None, v)
      else if Rejects(v, scan.trade.value) then
        NextCandidate(detect, p, v.(searchFrom := v.searchFrom + Max(scan.exitIdx, 1)))
      else Candidate(Some((scan.trade.value, scan.exitIdx)), v)
  }

  method NextValidCandidate(detect: Detector, p: Prepared, s: StockState) returns (r: Option<(Trade, nat)>)
    modifies s`searchFrom
    ensures Candidate(r, s.Now()) == NextCandidate(detect, p, old(s.Now()))
  {
    hide ScanAndTrade;
    while true
      invariant NextCandidate(detect, p, s.Now()) == NextCandidate(detect, p, old(s.Now()))
      decreases |p.candles| - s.searchFrom
    {
      if s.searchFrom >= |p.candles| {
        return None;
      }
      var scan := ScanAndTrade(detect, p.cfg, p.candles[s.searchFrom..], p.orHigh, p.orLow, true);
      if scan.trade.None? {
        return None;
      }
      if s.confirmedSide.Some? && scan.trade.value.side != s.confirmedSide.value {
        s.searchFrom := s.searchFrom + Max(scan.exitIdx, 1);
        continue;
      }
      return Some((scan.trade.value, scan.exitIdx));
    }
  }

  /** The trades of a stock searched alone, from a given state. */
  function SoloFrom(detect: Detector, p: Prepared, v: View): seq<Trade>
    decreases p.cfg.maxDailyTrades - v.tradeCount
  {
    if LimitsReached(p, v) then []
    else
      var c := NextCandidate(detect, p, v);
      match c.found
      case None => []
      case Some((t, exitIdx)) => [t] + SoloFrom(detect, p, Accepted(c.view, t, exitIdx))
  }

  method RunSolo(detect: Detector, p: Prepared) returns (results: seq<Trade>)
    ensures results == SoloFrom(detect, p, START)
  {
    hide NextCandidate, Accepted;
    var state := new StockState();
    results := [];
    while true
      invariant results + SoloFrom(detect, p, state.Now()) == SoloFrom(detect, p, START)
      invariant fresh(state)
      decreases p.cfg.maxDailyTrades - state.tradeCount
    {
      if state.tradeCount >= p.cfg.maxDailyTrades {
        break;
      }
      if state.cumulativePnl <= p.cfg.maxDailyLossPct {
        break;
      }
      var candidate := NextValidCandidate(detect, p, state);
      match candidate {
        case Some((t, exitIdx)) =>
          AcceptedCounts(state.Now(), t, exitIdx);
          AcceptTrade(t, state, exitIdx);
          results := results + [t];
        case None =>
          break;
      }
    }
    assert results + [] == results;
  }

  // ---------------------------------------------------------------------------
  // The flat search
  // ---------------------------------------------------------------------------

  function FlatFrom(detect: Detector, p: Prepared, v: View): seq<Trade>
    decreases p.cfg.maxDailyTrades - v.tradeCount, |p.candles| - v.searchFrom
  {
    if LimitsReached(p, v) || v.searchFrom >= |p.candles| then []
    else
      var scan := ScanFromView(detect, p, v);
      if scan.trade.None? then []
      else if Rejects(v, scan.trade.value) then
        FlatFrom(detect, p, v.(searchFrom := v.searchFrom + Max(scan.exitIdx, 1)))
      else [scan.trade.value] + FlatFrom(detect, p, Accepted(v, scan.trade.value, scan.exitIdx))
  }

  /** One turn of the flat search. */
  lemma FlatStep(detect: Detector, p: Prepared, v: View)
    ensures FlatFrom(detect, p, v)
         == if LimitsReached(p, v) || v.searchFrom >= |p.candles| then []
            else
              var scan := ScanFromView(detect, p, v);
              if scan.trade.None? then []
              else if Rejects(v, scan.trade.value) then
                FlatFrom(detect, p, v.(searchFrom := v.searchFrom + Max(scan.exitIdx, 1)))
              else [scan.trade.value] + FlatFrom(detect, p, Accepted(v, scan.trade.value, scan.exitIdx))
  {
    hide ScanFromView;
  }

  /** The single loop of a whole day, with its own counters. */
  method RunDayLoop(detect: Detector, p: Prepared) returns (results: seq<Trade>)
    ensures results == FlatFrom(detect, p, START)
  {
    hide FlatFrom, ScanAndTrade, Trade.PnlPct;
    results := [];
    var tradeCount: nat, searchFrom: nat := 0, 0;
    var cumulativePnl := 0.0;
    var confirmedSide: Option<Side> := None;
    while true
      invariant results + FlatFrom(detect, p, View(searchFrom, tradeCount, cumulativePnl, confirmedSide))
             == FlatFrom(detect, p, START)
      decreases p.cfg.maxDailyTrades - tradeCount, |p.candles| - searchFrom
    {
      FlatStep(detect, p, View(searchFrom, tradeCount, cumulativePnl, confirmedSide));
      if tradeCount >= p.cfg.maxDailyTrades {
        break;
      }
      if cumulativePnl <= p.cfg.maxDailyLossPct {
        break;
      }
      if searchFrom >= |p.candles| {
        break;
      }
      var scan := ScanAndTrade(detect, p.cfg, p.candles[searchFrom..], p.orHigh, p.orLow, true);
      if scan.trade.None? {
        break;
      }
      var trade := scan.trade.value;
      if confirmedSide.Some? && trade.side != confirmedSide.value {
        searchFrom := searchFrom + Max(scan.exitIdx, 1);
        continue;
      }
      var pnl := trade.PnlPct();
      tradeCount := tradeCount + 1;
      cumulativePnl := cumulativePnl + pnl;
      confirmedSide := if pnl > 0.0 then Some(trade.side) else None;
      results := results + [trade];
      searchFrom := searchFrom + scan.exitIdx;
    }
    assert results + [] == results;
  }

  /** Flat and nested search return the same trades, whatever the candles, rules and detector. */
  lemma {:induction false} FlatEqualsNested(detect: Detector, p: Prepared, v: View)
    ensures FlatFrom(detect, p, v) == SoloFrom(detect, p, v)
    decreases p.cfg.maxDailyTrades - v.tradeCount, |p.candles| - v.searchFrom
  {
    hide ScanFromView;
    if !LimitsReached(p, v) && v.searchFrom < |p.candles| {
      var scan := ScanFromView(detect, p, v);
      if scan.trade.Some? {
        if Rejects(v, scan.trade.value) {
          FlatEqualsNested(detect, p, v.(searchFrom := v.searchFrom + Max(scan.exitIdx, 1)));
        } else {
          FlatEqualsNested(detect, p, Accepted(v, scan.trade.value, scan.exitIdx));
        }
      }
    }
  }

  // ---------------------------------------------------------------------------
  // Limits
  // ---------------------------------------------------------------------------

  function PnlSum(ts: seq<Trade>): real {
    if ts == [] then 0.0 else PnlSum(ts[..|ts| - 1]) + ts[|ts| - 1].PnlPct()
  }

  /** Trades of one stock in order: few enough, each begun above the loss limit, winners repeated on their side. */
  ghost predicate WithinLimits(cfg: Config, ts: seq<Trade>) {
    && |ts| <= cfg.maxDailyTrades
    && (forall k :: 0 <= k < |ts| ==> PnlSum(ts[..k]) > cfg.maxDailyLossPct)
    && RepeatsWinners(ts)
  }

  /** The counters of a state summarise the trades accepted so far. */
  ghost predicate Summarises(v: View, ts: seq<Trade>) {
    && v.tradeCount == |ts|
    && v.cumulativePnl == PnlSum(ts)
    && v.confirmedSide == if ts != [] && ts[|ts| - 1].PnlPct() > 0.0 then Some(ts[|ts| - 1].side) else None
  }

  lemma AcceptKeepsLimits(p: Prepared, v: View, ts: seq<Trade>, t: Trade, exitIdx: nat)
    requires WithinLimits(p.cfg, ts) && Summarises(v, ts) && !LimitsReached(p, v) && !Rejects(v, t)
    ensures WithinLimits(p.cfg, ts + [t]) && Summarises(Accepted(v, t, exitIdx), ts + [t])
  {
    hide PnlSum, Trade.PnlPct;
    PnlSumSnoc(ts, t);
    forall k | 0 <= k < |ts + [t]| ensures PnlSum((ts + [t])[..k]) > p.cfg.maxDailyLossPct {
      assert (ts + [t])[..k] == if k < |ts| then ts[..k] else ts;
    }
    SidesSnoc(ts, t);
    hide RepeatsWinners;
  }

  lemma PnlSumSnoc(ts: seq<Trade>, t: Trade)
    ensures PnlSum(ts + [t]) == PnlSum(ts) + t.PnlPct()
  {
    assert (ts + [t])[..|ts|] == ts;
  }

  /** Every trade behind a winner is on the winner's side. */
  ghost predicate RepeatsWinners(ts: seq<Trade>) {
    forall k :: 0 < k < |ts| ==> ts[k - 1].PnlPct() > 0.0 ==> ts[k].side == ts[k - 1].side
  }

  lemma SidesSnoc(ts: seq<Trade>, t: Trade)
    requires RepeatsWinners(ts)
    requires ts != [] && ts[|ts| - 1].PnlPct() > 0.0 ==> t.side == ts[|ts| - 1].side
    ensures RepeatsWinners(ts + [t])
  {
    hide Trade.PnlPct;
  }

  /** A candidate is never a trade against the confirmed side. */
  lemma {:induction false} CandidateFitsSide(detect: Detector, p: Prepared, v: View)
    ensures var c := NextCandidate(detect, p, v); c.found.Some? ==> !Rejects(c.view, c.found.value.0)
    decreases |p.candles| - v.searchFrom
  {
    hide ScanFromView;
    if v.searchFrom < |p.candles| {
      var scan := ScanFromView(detect, p, v);
      if scan.trade.Some? && Rejects(v, scan.trade.value) {
        CandidateFitsSide(detect, p, v.(searchFrom := v.searchFrom + Max(scan.exitIdx, 1)));
      }
    }
  }

  lemma {:induction false} SoloWithinLimits(detect: Detector, p: Prepared, v: View, before: seq<Trade>)
    requires WithinLimits(p.cfg, before) && Summarises(v, before)
    ensures WithinLimits(p.cfg, before + SoloFrom(detect, p, v))
    decreases p.cfg.maxDailyTrades - v.tradeCount
  {
    hide NextCandidate, WithinLimits, Summarises, Accepted;
    var c := NextCandidate(detect, p, v);
    if LimitsReached(p, v) || c.found.None? {
      assert before + [] == before;
    } else {
      var (t, exitIdx) := c.found.value;
      CandidateFitsSide(detect, p, v);
      CandidateKeepsSummary(detect, p, v, before);
      AcceptKeepsLimits(p, c.view, before, t, exitIdx);
      AcceptedCounts(c.view, t, exitIdx);
      SoloWithinLimits(detect, p, Accepted(c.view, t, exitIdx), before + [t]);
      assert before + ([t] + SoloFrom(detect, p, Accepted(c.view, t, exitIdx)))
          == (before + [t]) + SoloFrom(detect, p, Accepted(c.view, t, exitIdx));
    }
  }

  lemma CandidateKeepsSummary(detect: Detector, p: Prepared, v: View, ts: seq<Trade>)
    requires Summarises(v, ts)
    ensures Summarises(NextCandidate(detect, p, v).view, ts)
    ensures NextCandidate(detect, p, v).view.tradeCount == v.tradeCount
    ensures LimitsReached(p, NextCandidate(detect, p, v).view) == LimitsReached(p, v)
  {
    hide NextCandidate;
    assert NextCandidate(detect, p, v).view == v.(searchFrom := NextCandidate(detect, p, v).view.searchFrom);
  }

  lemma AcceptedCounts(v: View, t: Trade, exitIdx: nat)
    ensures Accepted(v, t, exitIdx).tradeCount == v.tradeCount + 1
  {
  }

  /** A day of one stock, by either loop, keeps its limits. */
  lemma DayWithinLimits(detect: Detector, p: Prepared)
    ensures WithinLimits(p.cfg, SoloFrom(detect, p, START))
    ensures WithinLimits(p.cfg, FlatFrom(detect, p, START))
  {
    hide SoloFrom, FlatFrom;
    assert WithinLimits(p.cfg, []) && Summarises(START, []);
    SoloWithinLimits(detect, p, START, []);
    FlatEqualsNested(detect, p, START);
    assert [] + SoloFrom(detect, p, START) == SoloFrom(detect, p, START);
  }

  /** A first trade that loses at least the daily limit ends the day. */
  lemma FirstLossEndsDay(detect: Detector, p: Prepared)
    requires var ts := SoloFrom(detect, p, START);
             && ts != [] && ts[0].entryPrice > 0
             && 100.0 * (if ts[0].side == Long then ts[0].exitPrice - ts[0].entryPrice
                         else ts[0].entryPrice - ts[0].exitPrice) as real
                <= p.cfg.maxDailyLossPct * ts[0].entryPrice as real
    ensures |SoloFrom(detect, p, START)| == 1
  {
    hide SoloFrom, FlatFrom, Trade.PnlPct;
    var ts := SoloFrom(detect, p, START);
    LosesExactly(ts[0], p.cfg.maxDailyLossPct);
    DayWithinLimits(detect, p);
    if |ts| > 1 {
      assert ts[..1] == [] + [ts[0]];
      PnlSumSnoc([], ts[0]);
    }
  }

  /** Behind a trade that left strictly beyond its positive entry price, the next is on the same side. */
  lemma WinnerRepeats(detect: Detector, p: Prepared, k: nat)
    requires var ts := SoloFrom(detect, p, START);
             && k + 1 < |ts| && ts[k].entryPrice > 0
             && (if ts[k].side == Long then ts[k].exitPrice > ts[k].entryPrice else ts[k].exitPrice < ts[k].entryPrice)
    ensures SoloFrom(detect, p, START)[k + 1].side == SoloFrom(detect, p, START)[k].side
  {
    hide SoloFrom, FlatFrom, Trade.PnlPct, PnlSum;
    var ts := SoloFrom(detect, p, START);
    WinsExactly(ts[k]);
    DayWithinLimits(detect, p);
    assert ts[(k + 1) - 1] == ts[k];
  }

  // ---------------------------------------------------------------------------
  // The whole search, told by its visits
  // ---------------------------------------------------------------------------

  /** A scan made during the day: where, what it gave, and whether the trade was taken. */
  datatype Visit = Visit(from: nat, trade: Trade, exitIdx: nat, taken: bool)
  {
    /** A taken trade leads to its exit candle, a refused one at least one candle further. */
    function Next(): nat {
      from + if taken || exitIdx >= 1 then exitIdx else 1
    }
  }

  function Taken(vs: seq<Visit>): seq<Trade> {
    if vs == [] then []
    else Taken(vs[..|vs| - 1]) + if vs[|vs| - 1].taken then [vs[|vs| - 1].trade] else []
  }

  function PositionAfter(vs: seq<Visit>): nat {
    if vs == [] then 0 else vs[|vs| - 1].Next()
  }

  /** Neither limit is reached by the trades so far. */
  ghost predicate MayTrade(cfg: Config, ts: seq<Trade>) {
    |ts| < cfg.maxDailyTrades && PnlSum(ts) > cfg.maxDailyLossPct
  }

  /** The trade is not on the other side than a winner just before it. */
  ghost predicate FitsWinner(ts: seq<Trade>, t: Trade) {
    ts != [] && ts[|ts| - 1].PnlPct() > 0.0 ==> t.side == ts[|ts| - 1].side
  }

  function ScanAtCandle(detect: Detector, p: Prepared, from: nat): Scan
    requires from <= |p.candles|
  {
    ScanAndTrade(detect, p.cfg, p.candles[from..], p.orHigh, p.orLow, true)
  }

  /** The k-th visit follows from the ones before it. */
  ghost predicate IsVisit(detect: Detector, p: Prepared, vs: seq<Visit>, v: Visit) {
    && MayTrade(p.cfg, Taken(vs))
    && v.from == PositionAfter(vs) < |p.candles|
    && ScanAtCandle(detect, p, v.from).trade == Some(v.trade)
    && ScanAtCandle(detect, p, v.from).exitIdx == v.exitIdx
    && (v.taken <==> FitsWinner(Taken(vs), v.trade))
  }

  ghost predicate AreVisits(detect: Detector, p: Prepared, vs: seq<Visit>) {
    forall k :: 0 <= k < |vs| ==> IsVisit(detect, p, vs[..k], vs[k])
  }

  /** Nothing can follow: a limit is reached, the candles are used up, or the scan finds nothing. */
  ghost predicate IsOver(detect: Detector, p: Prepared, vs: seq<Visit>) {
    || !MayTrade(p.cfg, Taken(vs))
    || PositionAfter(vs) >= |p.candles|
    || ScanAtCandle(detect, p, PositionAfter(vs)).trade == None
  }

  ghost predicate IsWholeSearch(detect: Detector, p: Prepared, vs: seq<Visit>) {
    AreVisits(detect, p, vs) && IsOver(detect, p, vs)
  }

  /** The state of the search after some visits. */
  function ViewAfter(vs: seq<Visit>): View {
    var ts := Taken(vs);
    View(PositionAfter(vs), |ts|, PnlSum(ts),
         if ts != [] && ts[|ts| - 1].PnlPct() > 0.0 then Some(ts[|ts| - 1].side) else None)
  }

  lemma VisitSnoc(vs: seq<Visit>, v: Visit)
    ensures Taken(vs + [v]) == Taken(vs) + if v.taken then [v.trade] else []
    ensures PositionAfter(vs + [v]) == v.Next()
  {
    assert (vs + [v])[..|vs|] == vs;
  }

  lemma VisitsSnoc(detect: Detector, p: Prepared, vs: seq<Visit>, v: Visit)
    requires AreVisits(detect, p, vs) && IsVisit(detect, p, vs, v)
    ensures AreVisits(detect, p, vs + [v])
  {
    hide IsVisit;
    forall k | 0 <= k < |vs + [v]| ensures IsVisit(detect, p, (vs + [v])[..k], (vs + [v])[k]) {
      assert (vs + [v])[..k] == vs[..k];
      assert k == |vs| ==> vs[..k] == vs;
    }
  }

  /** One visit is one turn of the flat search. */
  lemma VisitIsTurn(detect: Detector, p: Prepared, vs: seq<Visit>)
    ensures var v := ViewAfter(vs);
            && v.searchFrom == PositionAfter(vs)
            && (LimitsReached(p, v) <==> !MayTrade(p.cfg, Taken(vs)))
            && forall t :: Rejects(v, t) <==> !FitsWinner(Taken(vs), t)
  {
    hide Trade.PnlPct, PnlSum;
  }

  lemma ViewSnoc(vs: seq<Visit>, v: Visit)
    requires v.from == PositionAfter(vs)
    ensures ViewAfter(vs + [v])
         == if v.taken then Accepted(ViewAfter(vs), v.trade, v.exitIdx)
            else ViewAfter(vs).(searchFrom := v.from + Max(v.exitIdx, 1))
  {
    hide Trade.PnlPct, PnlSum, Taken, PositionAfter;
    VisitSnoc(vs, v);
    assert Taken(vs) + [] == Taken(vs);
    if v.taken {
      PnlSumSnoc(Taken(vs), v.trade);
    }
  }

  lemma {:induction false} VisitsToTheEnd(detect: Detector, p: Prepared, vs: seq<Visit>) returns (all: seq<Visit>)
    requires AreVisits(detect, p, vs)
    ensures IsWholeSearch(detect, p, all)
    ensures Taken(all) == Taken(vs) + FlatFrom(detect, p, ViewAfter(vs))
    decreases p.cfg.maxDailyTrades - |Taken(vs)|, |p.candles| - PositionAfter(vs)
  {
    hide Trade.PnlPct, PnlSum, Taken, PositionAfter, ScanAndTrade, MayTrade, FitsWinner, AreVisits, ViewAfter, Accepted, Rejects, LimitsReached, FlatFrom;
    VisitIsTurn(detect, p, vs);
    FlatStep(detect, p, ViewAfter(vs));
    if IsOver(detect, p, vs) {
      all := vs;
      assert Taken(vs) + [] == Taken(vs);
    } else {
      var scan := ScanAtCandle(detect, p, PositionAfter(vs));
      var v := Visit(PositionAfter(vs), scan.trade.value, scan.exitIdx, FitsWinner(Taken(vs), scan.trade.value));
      VisitsSnoc(detect, p, vs, v);
      VisitSnoc(vs, v);
      ViewSnoc(vs, v);
      MayTradeLeavesRoom(p.cfg, Taken(vs));
      all := VisitsToTheEnd(detect, p, vs + [v]);
      if v.taken {
        assert Taken(vs) + ([v.trade] + FlatFrom(detect, p, ViewAfter(vs + [v])))
            == (Taken(vs) + [v.trade]) + FlatFrom(detect, p, ViewAfter(vs + [v]));
      } else {
        assert Taken(vs) + [] == Taken(vs);
      }
    }
  }

  lemma MayTradeLeavesRoom(cfg: Config, ts: seq<Trade>)
    requires MayTrade(cfg, ts)
    ensures |ts| < cfg.maxDailyTrades
  {
  }

  lemma {:induction false} WholeSearchIsUnique(detect: Detector, p: Prepared, vs: seq<Visit>, ws: seq<Visit>, n: nat)
    requires IsWholeSearch(detect, p, vs) && IsWholeSearch(detect, p, ws)
    requires n <= |vs| && n <= |ws|
    ensures vs[..n] == ws[..n] && (n == |vs| <==> n == |ws|)
  {
    hide ScanAtCandle, MayTrade, FitsWinner, Taken, PositionAfter;
    if n > 0 {
      WholeSearchIsUnique(detect, p, vs, ws, n - 1);
      SameVisit(detect, p, vs[..n - 1], vs[n - 1], ws[n - 1]);
      assert vs[..n] == vs[..n - 1] + [vs[n - 1]] && ws[..n] == ws[..n - 1] + [ws[n - 1]];
    }
    assert n == |vs| ==> vs[..n] == vs;
    assert n == |ws| ==> ws[..n] == ws;
  }

  lemma SameVisit(detect: Detector, p: Prepared, vs: seq<Visit>, v: Visit, w: Visit)
    requires IsVisit(detect, p, vs, v) && IsVisit(detect, p, vs, w)
    ensures v == w
  {
    hide ScanAtCandle, MayTrade, FitsWinner, Taken, PositionAfter;
  }

  ghost predicate TakenBySearch(detect: Detector, p: Prepared, ts: seq<Trade>) {
    exists vs :: IsWholeSearch(detect, p, vs) && Taken(vs) == ts
  }

  /**
   The day of one stock, by either loop, is the one whole search there is: scan after scan from
   the first candle, each on the exit candle of the last taken trade or behind a refused one, a
   trade refused exactly when it goes against the winner before it, until a limit is reached or
   nothing is found.
   */
  lemma DayIsTheWholeSearch(detect: Detector, p: Prepared, ts: seq<Trade>)
    ensures TakenBySearch(detect, p, ts) <==> ts == SoloFrom(detect, p, START)
    ensures TakenBySearch(detect, p, ts) <==> ts == FlatFrom(detect, p, START)
  {
    hide SoloFrom, FlatFrom, IsWholeSearch;
    FlatEqualsNested(detect, p, START);
    var all := VisitsToTheEnd(detect, p, []);
    assert [] + FlatFrom(detect, p, START) == FlatFrom(detect, p, START);
    if TakenBySearch(detect, p, ts) {
      var vs :| IsWholeSearch(detect, p, vs) && Taken(vs) == ts;
      var n := if |vs| <= |all| then |vs| else |all|;
      WholeSearchIsUnique(detect, p, vs, all, n);
      assert vs[..n] == vs && all[..n] == all;
    }
  }

  /** On time-ordered candles a taken trade leads to the first candle at or after its exit. */
  lemma TakenLeadsToExit(detect: Detector, p: Prepared, from: nat, i: nat)
    requires TimeOrdered(p.candles) && from <= i < |p.candles|
    requires ScanAtCandle(detect, p, from).trade.Some?
    ensures var scan := ScanAtCandle(detect, p, from);
            from + scan.exitIdx <= i <==> p.candles[i].time >= scan.trade.value.exitTime
  {
    hide ScanAndTrade;
    var slice := p.candles[from..];
    var scan := ScanAtCandle(detect, p, from);
    var k := ScanExitIndex(detect, p.cfg, slice, p.orHigh, p.orLow, true);
    assert slice[i - from] == p.candles[i];
    if k < |slice| {
      assert slice[k] == p.candles[from + k];
      assert k <= i - from ==> p.candles[from + k].time <= p.candles[i].time;
    }
  }

  /** The reported index is that of the first candle at or after the exit time. */
  lemma ScanExitIndex(detect: Detector, cfg: Config, cs: seq<Candle>, orHigh: int, orLow: int, requireOr: bool) returns (k: nat)
    requires ScanAndTrade(detect, cfg, cs, orHigh, orLow, requireOr).trade.Some?
    ensures var r := ScanAndTrade(detect, cfg, cs, orHigh, orLow, requireOr);
            && k == r.exitIdx <= |cs|
            && (forall i :: 0 <= i < k ==> cs[i].time < r.trade.value.exitTime)
            && (k < |cs| ==> cs[k].time >= r.trade.value.exitTime)
  {
    hide Exit, EntryOf;
    k := ScanAndTrade(detect, cfg, cs, orHigh, orLow, requireOr).exitIdx;
  }
}

/**
 A whole day: preparing a stock (opening range, stage), the single-stock day, and the
 simulation of two stocks that share one position lock.
 */
module DaySimulation {
  import opened Arithmetic
  import opened Wrappers
  import opened Candles
  import opened Trades
  import opened TradeSearch

  // ---------------------------------------------------------------------------
  // Preparation
  // ---------------------------------------------------------------------------

  /** The candles with from <= time < to. */
  function Between(cs: seq<Candle>, from: Time, to: int): seq<Candle> {
    if cs == [] then []
    else (if from <= cs[0].time < to then [cs[0]] else []) + Between(cs[1..], from, to)
  }

  const DAY_END := 86400

  /** A filter: it works candle by candle and keeps exactly those within the times. */
  lemma {:induction false} BetweenIsFilter(a: seq<Candle>, b: seq<Candle>, c: Candle, from: Time, to: int)
    ensures Between(a + b, from, to) == Between(a, from, to) + Between(b, from, to)
    ensures Between([c], from, to) == if from <= c.time && c.time < to then [c] else []
    ensures c in Between(a, from, to) <==> c in a && from <= c.time && c.time < to
  {
    BetweenOne(c, from, to);
    hide Between;
    if a == [] {
      assert a + b == b;
      BetweenNone(from, to);
    } else {
      BetweenIsFilter(a[1..], b, c, from, to);
      assert (a + b)[1..] == a[1..] + b;
      BetweenUnfolds(a, from, to);
      BetweenUnfolds(a + b, from, to);
    }
  }

  lemma BetweenNone(from: Time, to: int)
    ensures Between([], from, to) == []
  {
  }

  lemma BetweenOne(c: Candle, from: Time, to: int)
    ensures Between([c], from, to) == if from <= c.time && c.time < to then [c] else []
  {
    assert [c][1..] == [];
  }

  lemma BetweenUnfolds(cs: seq<Candle>, from: Time, to: int)
    requires cs != []
    ensures Between(cs, from, to) == (if from <= cs[0].time < to then [cs[0]] else []) + Between(cs[1..], from, to)
  {
  }

  function Prepare(cfg: Config, candles: seq<Candle>): Option<Prepared> {
    var orBars := Between(candles, cfg.orStart, cfg.orEnd);
    var scan := Between(candles, cfg.orEnd, DAY_END);
    if orBars == [] || scan == [] then None
    else Some(Prepared(cfg, scan, HighOf(orBars), LowOf(orBars)))
  }

  datatype Stage = Stage(name: string, orStart: Time, orEnd: Time)

  function StageConfig(base: Config, s: Stage): Config {
    base.(orStart := s.orStart, orEnd := s.orEnd)
  }

  /**
   A stock is prepared with a stage exactly when there are candles in the stage's range and
   behind it: with the range's highest high and lowest low, and the candles behind it.
   */
  lemma PreparedWithStage(base: Config, stage: Stage, candles: seq<Candle>)
    ensures var r := Prepare(StageConfig(base, stage), candles);
            && (r.Some? <==>
                  && (exists c :: c in candles && stage.orStart <= c.time < stage.orEnd)
                  && (exists c :: c in candles && stage.orEnd <= c.time))
            && (r.Some? ==>
                  && r.value.cfg == base.(orStart := stage.orStart, orEnd := stage.orEnd)
                  && r.value.candles == Between(candles, stage.orEnd, DAY_END)
                  && IsRangeOf(r.value.orHigh, r.value.orLow, candles, stage.orStart, stage.orEnd))
  {
    hide Between, HighOf, LowOf;
    var ins, later := Between(candles, stage.orStart, stage.orEnd), Between(candles, stage.orEnd, DAY_END);
    forall c: Candle
      ensures c in ins <==> c in candles && stage.orStart <= c.time < stage.orEnd
      ensures c in later <==> c in candles && stage.orEnd <= c.time
    {
      BetweenIsFilter(candles, [], c, stage.orStart, stage.orEnd);
      BetweenIsFilter(candles, [], c, stage.orEnd, DAY_END);
    }
    assert ins != [] <==> exists c :: c in ins by { if ins != [] { assert ins[0] in ins; } }
    assert later != [] <==> exists c :: c in later by { if later != [] { assert later[0] in later; } }
    if ins != [] {
      var h := HighIsHighest(ins);
      var l := LowIsLowest(ins);
      forall c | c in ins ensures LowOf(ins) <= c.low && c.high <= HighOf(ins) {
        var i :| 0 <= i < |ins| && ins[i] == c;
      }
      assert ins[h] in ins && ins[l] in ins;
    }
  }

  /** The highest high and lowest low of the candles from one time up to another. */
  ghost predicate IsRangeOf(high: int, low: int, candles: seq<Candle>, from: Time, to: Time) {
    && (exists c :: c in candles && from <= c.time < to && c.high == high)
    && (exists c :: c in candles && from <= c.time < to && c.low == low)
    && (forall c :: c in candles && from <= c.time < to ==> low <= c.low && c.high <= high)
  }

  /** Entry time of the first trade a prepared stock would make, if any. */
  function FirstEntry(detect: Detector, p: Prepared): Option<Time> {
    var t := ScanAndTrade(detect, p.cfg, p.candles, p.orHigh, p.orLow, true).trade;
    if t.Some? then Some(t.value.entryTime) else None
  }

  /** The dry run foresees the entry of the first trade, whenever the limits allow any trade at all. */
  lemma DryRunForeseesFirstTrade(detect: Detector, p: Prepared)
    requires p.candles != [] && p.cfg.maxDailyTrades > 0 && p.cfg.maxDailyLossPct < 0.0
    ensures var ts := SoloFrom(detect, p, START);
            FirstEntry(detect, p) == if ts == [] then None else Some(ts[0].entryTime)
  {
    hide ScanAndTrade, Trade.PnlPct;
    assert p.candles[0..] == p.candles;
  }

  const LAST_SECOND: Time := 86399

  /** The stage with the earliest first entry among the first `n`; an earlier stage wins a tie. */
  function EarliestStage(detect: Detector, base: Config, candles: seq<Candle>, stages: seq<Stage>, n: nat):
    (Time, Option<Prepared>)
    requires n <= |stages|
  {
    if n == 0 then (LAST_SECOND, None)
    else
      var (earliest, best) := EarliestStage(detect, base, candles, stages, n - 1);
      match Prepare(StageConfig(base, stages[n - 1]), candles)
      case None => (earliest, best)
      case Some(p) =>
        match FirstEntry(detect, p)
        case None => (earliest, best)
        case Some(time) => if time < earliest then (time, Some(p)) else (earliest, best)
  }

  function Picked(detect: Detector, base: Config, candles: seq<Candle>, multiStage: bool, stages: seq<Stage>):
    Option<Prepared>
  {
    if candles == [] then None
    else if !multiStage then Prepare(base, candles)
    else EarliestStage(detect, base, candles, stages, |stages|).1
  }

  method PickStrategyForDay(detect: Detector, base: Config, candles: seq<Candle>, multiStage: bool, stages: seq<Stage>)
    returns (r: Option<Prepared>)
    ensures r == Picked(detect, base, candles, multiStage, stages)
  {
    hide Prepare, ScanAndTrade;
    if candles == [] {
      return None;
    }
    if !multiStage {
      return Prepare(base, candles);
    }
    var earliestEntry := LAST_SECOND;
    r := None;
    for i := 0 to |stages|
      invariant (earliestEntry, r) == EarliestStage(detect, base, candles, stages, i)
    {
      var prepared := Prepare(StageConfig(base, stages[i]), candles);
      if prepared.Some? {
        var p := prepared.value;
        var first := ScanAndTrade(detect, p.cfg, p.candles, p.orHigh, p.orLow, true).trade;
        if first.Some? && first.value.entryTime < earliestEntry {
          earliestEntry := first.value.entryTime;
          r := prepared;
        }
      }
    }
  }

  /** Without stages the stock is prepared as configured, without candles not at all. */
  lemma PickedWithoutStages(detect: Detector, base: Config, candles: seq<Candle>, multiStage: bool, stages: seq<Stage>)
    ensures candles == [] ==> Picked(detect, base, candles, multiStage, stages) == None
    ensures !multiStage ==> Picked(detect, base, candles, multiStage, stages) == Prepare(base, candles)
    ensures multiStage && candles != [] ==>
              Picked(detect, base, candles, multiStage, stages) == EarliestStage(detect, base, candles, stages, |stages|).1
  {
  }

  /** When the stock prepared with this stage would enter; stages that enter too late do not. */
  function StageEntry(detect: Detector, base: Config, candles: seq<Candle>, stage: Stage): Option<Time> {
    match Prepare(StageConfig(base, stage), candles)
    case None => None
    case Some(p) =>
      var entry := FirstEntry(detect, p);
      if entry.Some? && entry.value < 23 * 3600 + 59 * 60 + 59 then entry else None
  }

  /** Stage `j` enters, before every earlier stage and no later than any of the first `n`. */
  ghost predicate EntersFirst(detect: Detector, base: Config, candles: seq<Candle>, stages: seq<Stage>, n: nat, j: nat)
    requires n <= |stages|
  {
    && j < n
    && StageEntry(detect, base, candles, stages[j]).Some?
    && var at := StageEntry(detect, base, candles, stages[j]).value;
       forall i :: 0 <= i < n && StageEntry(detect, base, candles, stages[i]).Some? ==>
         var other := StageEntry(detect, base, candles, stages[i]).value;
         if i < j then at < other else at <= other
  }

  /**
   A stage is picked exactly when some stage would enter before the last second of the day; it
   is the one that enters first, the earlier stage on a tie.
   */
  lemma {:induction false} PickedStageIsEarliest(detect: Detector, base: Config, candles: seq<Candle>,
                                                 stages: seq<Stage>, n: nat)
    returns (j: nat)
    requires n <= |stages|
    ensures var (earliest, best) := EarliestStage(detect, base, candles, stages, n);
            && (best.None? <==> forall i :: 0 <= i < n ==> StageEntry(detect, base, candles, stages[i]).None?)
            && (best.None? ==> earliest == LAST_SECOND)
            && (best.Some? ==>
                  && EntersFirst(detect, base, candles, stages, n, j)
                  && best == Prepare(StageConfig(base, stages[j]), candles)
                  && StageEntry(detect, base, candles, stages[j]) == Some(earliest))
  {
    hide Prepare, FirstEntry, StageConfig;
    j := 0;
    if n > 0 {
      j := PickedStageIsEarliest(detect, base, candles, stages, n - 1);
      var (earliest, best) := EarliestStage(detect, base, candles, stages, n - 1);
      var entry := StageEntry(detect, base, candles, stages[n - 1]);
      if entry.Some? && entry.value < earliest {
        j := n - 1;
      }
    }
  }

  // ---------------------------------------------------------------------------
  // The single-stock day
  // ---------------------------------------------------------------------------

  /** Five-minute input shows in the distance of the first two candles. */
  predicate IsFiveMinuteInput(candles: seq<Candle>) {
    |candles| >= 2 && TruncDiv(candles[1].time - candles[0].time, 60) >= 4
  }

  /** As `Prepare`, with finer candles aggregated to five minutes. */
  function PrepareDay(cfg: Config, candles: seq<Candle>): Option<Prepared> {
    match Prepare(cfg, candles)
    case None => None
    case Some(p) =>
      Some(p.(candles := if IsFiveMinuteInput(candles) then p.candles else Aggregated(p.candles, 5)))
  }

  function DayOf(detect: Detector, cfg: Config, candles: seq<Candle>): seq<Trade> {
    match PrepareDay(cfg, candles)
    case None => []
    case Some(p) => FlatFrom(detect, p, START)
  }

  method RunDay(detect: Detector, cfg: Config, candles: seq<Candle>) returns (results: seq<Trade>)
    ensures results == DayOf(detect, cfg, candles)
  {
    hide FlatFrom, HighOf, LowOf, Runs, Bar;
    if candles == [] {
      return [];
    }
    var orBars := Between(candles, cfg.orStart, cfg.orEnd);
    if orBars == [] {
      return [];
    }
    var scan := Between(candles, cfg.orEnd, DAY_END);
    var candles5m := scan;
    if !IsFiveMinuteInput(candles) {
      candles5m := Aggregate(scan, 5);
    }
    if candles5m == [] {
      SomethingAggregates(scan);
      return [];
    }
    var p := Prepared(cfg, candles5m, HighOf(orBars), LowOf(orBars));
    results := RunDayLoop(detect, p);
  }

  lemma SomethingAggregates(cs: seq<Candle>)
    ensures Aggregated(cs, 5) == [] <==> cs == []
  {
    if cs != [] {
      assert Runs(cs, 5) != [];
    }
  }

  /**
   The single-stock day is the solo search of the prepared stock: on its own candles when the
   first two lie at least four minutes apart, on their five-minute bars otherwise.
   */
  lemma DayIsSoloSearch(detect: Detector, cfg: Config, candles: seq<Candle>)
    ensures DayOf(detect, cfg, candles)
         == match Prepare(cfg, candles)
            case None => []
            case Some(p) =>
              if |candles| >= 2 && candles[1].time - candles[0].time >= 4 * 60 then SoloFrom(detect, p, START)
              else SoloFrom(detect, p.(candles := Aggregated(p.candles, 5)), START)
  {
    hide FlatFrom, SoloFrom, Prepare, Runs;
    match Prepare(cfg, candles)
    case None =>
    case Some(p) =>
      assert p.(candles := p.candles) == p;
      FlatEqualsNested(detect, p, START);
      FlatEqualsNested(detect, p.(candles := Aggregated(p.candles, 5)), START);
  }

  // ---------------------------------------------------------------------------
  // Two stocks under one lock
  // ---------------------------------------------------------------------------

  datatype Lap = Lap(isA: bool, trade: Trade)

  datatype Dual = Dual(a: View, b: View, unlock: Time)

  datatype LapStep = Done | Took(lap: Lap, next: Dual)

  function TradesLeft(p: Prepared, v: View): nat {
    if v.tradeCount >= p.cfg.maxDailyTrades then 0 else p.cfg.maxDailyTrades - v.tradeCount
  }

  /** The candidate of a stock in this lap, searched after the lock was released. */
  function CandidateOf(detect: Detector, p: Prepared, v: View, unlock: Time): (c: Candidate)
    ensures c.view == v.(searchFrom := c.view.searchFrom)
    ensures c.found.Some? ==> !LimitsReached(p, v)
  {
    var synced := SyncedTo(v, p.candles, unlock);
    if LimitsReached(p, v) then Candidate(None, synced) else NextCandidate(detect, p, synced)
  }

  /** Scans at one position after the other, each trade but the last refused for its side. */
  ghost predicate RefusedUpTo(detect: Detector, p: Prepared, side: Option<Side>, ps: seq<nat>) {
    && ps != []
    && forall k :: 0 <= k < |ps| - 1 ==> IsRefused(detect, p, side, ps[k], ps[k + 1])
  }

  /** The scan at a position gives a trade against the side, and the next position is its exit candle, at least one further. */
  ghost predicate IsRefused(detect: Detector, p: Prepared, side: Option<Side>, at: nat, next: nat) {
    && at < |p.candles|
    && var scan := ScanAtCandle(detect, p, at);
       && scan.trade.Some?
       && side.Some? && scan.trade.value.side != side.value
       && next == at + if scan.exitIdx >= 1 then scan.exitIdx else 1
  }

  /** What the search shows at the position where it stops. */
  ghost predicate IsFoundAt(detect: Detector, p: Prepared, side: Option<Side>, at: nat, found: Option<(Trade, nat)>) {
    if at >= |p.candles| || ScanAtCandle(detect, p, at).trade == None then found == None
    else
      var scan := ScanAtCandle(detect, p, at);
      && found == Some((scan.trade.value, scan.exitIdx))
      && (side == None || side == Some(scan.trade.value.side))
  }

  lemma {:induction false} NextCandidateExact(detect: Detector, p: Prepared, v: View) returns (ps: seq<nat>)
    ensures ps != [] && RefusedUpTo(detect, p, v.confirmedSide, ps) && ps[0] == v.searchFrom
    ensures var c := NextCandidate(detect, p, v);
            && c.view == v.(searchFrom := ps[|ps| - 1])
            && IsFoundAt(detect, p, v.confirmedSide, ps[|ps| - 1], c.found)
    decreases |p.candles| - v.searchFrom
  {
    hide ScanAndTrade;
    ps := [v.searchFrom];
    if v.searchFrom < |p.candles| {
      var scan := ScanFromView(detect, p, v);
      if scan.trade.Some? && Rejects(v, scan.trade.value) {
        var next := v.searchFrom + Max(scan.exitIdx, 1);
        var rest := NextCandidateExact(detect, p, v.(searchFrom := next));
        ps := [v.searchFrom] + rest;
        forall k | 0 <= k < |ps| - 1 ensures IsRefused(detect, p, v.confirmedSide, ps[k], ps[k + 1]) {
          assert k > 0 ==> ps[k] == rest[k - 1];
          assert ps[k + 1] == rest[k];
        }
      }
    }
  }

  /**
   In every lap each stock that is not done is searched from exactly its first candle after the
   unlock time, or from where it stood if that is further on; a stock that is done is not searched.
   */
  lemma LapSearchesFromUnlock(detect: Detector, p: Prepared, v: View, unlock: Time) returns (ps: seq<nat>)
    requires TimeOrdered(p.candles)
    ensures ps != [] && v.searchFrom <= ps[0]
    ensures forall i :: v.searchFrom <= i < |p.candles| ==> (ps[0] <= i <==> p.candles[i].time > unlock)
    ensures v.searchFrom < ps[0] ==> ps[0] <= |p.candles|
    ensures var c := CandidateOf(detect, p, v, unlock);
            if v.tradeCount >= p.cfg.maxDailyTrades || v.cumulativePnl <= p.cfg.maxDailyLossPct then
              c.found == None && c.view == v.(searchFrom := ps[0])
            else
              && RefusedUpTo(detect, p, v.confirmedSide, ps)
              && IsFoundAt(detect, p, v.confirmedSide, ps[|ps| - 1], c.found)
              && c.view == v.(searchFrom := ps[|ps| - 1])
  {
    hide NextCandidate, SyncedTo, RefusedUpTo, IsFoundAt;
    var k := SyncIsExact(v, p.candles, unlock);
    var synced := SyncedTo(v, p.candles, unlock);
    forall i | v.searchFrom <= i < |p.candles| ensures synced.searchFrom <= i <==> p.candles[i].time > unlock {
      SyncPassesOverNothing(v, p.candles, unlock, i);
    }
    if LimitsReached(p, v) {
      ps := [synced.searchFrom];
    } else {
      ps := NextCandidateExact(detect, p, synced);
    }
  }

  /** No trade is passed over: one that fits and is found from the first candle after the unlock time is the candidate. */
  lemma NothingPassedOver(detect: Detector, p: Prepared, v: View, unlock: Time, from: nat)
    requires TimeOrdered(p.candles) && v.searchFrom <= from < |p.candles|
    requires forall i :: v.searchFrom <= i < |p.candles| ==> (from <= i <==> p.candles[i].time > unlock)
    requires v.tradeCount < p.cfg.maxDailyTrades && v.cumulativePnl > p.cfg.maxDailyLossPct
    requires var t := ScanAtCandle(detect, p, from).trade;
             t.Some? && (v.confirmedSide == None || v.confirmedSide == Some(t.value.side))
    ensures var scan := ScanAtCandle(detect, p, from);
            CandidateOf(detect, p, v, unlock).found == Some((scan.trade.value, scan.exitIdx))
  {
    hide CandidateOf, ScanAtCandle;
    var ps := LapSearchesFromUnlock(detect, p, v, unlock);
    assert p.candles[from].time > unlock && ps[0] <= from;
    assert from <= ps[0] by { assert p.candles[ps[0]].time > unlock; }
    assert |ps| > 1 ==> IsRefused(detect, p, v.confirmedSide, ps[0], ps[1]);
  }

  /** What an accepted candidate changes: the stock that trades counts, adds up, remembers and moves on; the other only moves on. */
  lemma LapChangesExactly(detect: Detector, a: Prepared, b: Prepared, s: Dual)
    requires LapAt(detect, a, b, s).Took?
    ensures var Took(lap, next) := LapAt(detect, a, b, s);
            var ca, cb := CandidateOf(detect, a, s.a, s.unlock), CandidateOf(detect, b, s.b, s.unlock);
            && next.unlock == lap.trade.exitTime
            && (if lap.isA then ca.found.Some? && IsAccepted(ca.view, lap.trade, ca.found.value.1, next.a) && next.b == cb.view
                else cb.found.Some? && IsAccepted(cb.view, lap.trade, cb.found.value.1, next.b) && next.a == ca.view)
  {
    hide CandidateOf, Trade.PnlPct;
  }

  predicate IsAccepted(v: View, t: Trade, exitIdx: nat, after: View) {
    && after.searchFrom == v.searchFrom + exitIdx
    && after.tradeCount == v.tradeCount + 1
    && after.cumulativePnl == v.cumulativePnl + t.PnlPct()
    && after.confirmedSide == if t.PnlPct() > 0.0 then Some(t.side) else None
  }

  function TakeA(t: Trade, exitIdx: nat, a: View, b: View): LapStep {
    Took(Lap(true, t), Dual(Accepted(a, t, exitIdx), b, t.exitTime))
  }

  function TakeB(t: Trade, exitIdx: nat, a: View, b: View): LapStep {
    Took(Lap(false, t), Dual(a, Accepted(b, t, exitIdx), t.exitTime))
  }

  /** One lap: of two candidates the one that enters earlier is taken, A on a tie. */
  function LapAt(detect: Detector, a: Prepared, b: Prepared, s: Dual): (r: LapStep)
    ensures r.Took? ==> TradesLeft(a, r.next.a) + TradesLeft(b, r.next.b) < TradesLeft(a, s.a) + TradesLeft(b, s.b)
  {
    if LimitsReached(a, s.a) && LimitsReached(b, s.b) then Done
    else
      var ca, cb := CandidateOf(detect, a, s.a, s.unlock), CandidateOf(detect, b, s.b, s.unlock);
      match (ca.found, cb.found)
      case (Some((ta, ia)), Some((tb, ib))) =>
        if ta.entryTime <= tb.entryTime then TakeA(ta, ia, ca.view, cb.view) else TakeB(tb, ib, ca.view, cb.view)
      case (Some((ta, ia)), None) => TakeA(ta, ia, ca.view, cb.view)
      case (None, Some((tb, ib))) => TakeB(tb, ib, ca.view, cb.view)
      case (None, None) => Done
  }

  function LapsFrom(detect: Detector, a: Prepared, b: Prepared, s: Dual): seq<Lap>
    decreases TradesLeft(a, s.a) + TradesLeft(b, s.b)
  {
    match LapAt(detect, a, b, s)
    case Done => []
    case Took(lap, next) => [lap] + LapsFrom(detect, a, b, next)
  }

  function Tagged(isA: bool, ts: seq<Trade>): (ls: seq<Lap>)
    ensures |ls| == |ts|
    ensures forall k :: 0 <= k < |ts| ==> ls[k] == Lap(isA, ts[k])
  {
    if ts == [] then [] else [Lap(isA, ts[0])] + Tagged(isA, ts[1..])
  }

  /** The trades of one stock among the laps, in order. */
  function Of(isA: bool, ls: seq<Lap>): seq<Trade> {
    if ls == [] then [] else (if ls[0].isA == isA then [ls[0].trade] else []) + Of(isA, ls[1..])
  }

  const DUAL_START := Dual(START, START, 0)

  /** All laps of the day; with only one stock prepared, that stock is searched alone. */
  function LapsOf(detect: Detector, a: Option<Prepared>, b: Option<Prepared>): seq<Lap> {
    match (a, b)
    case (None, None) => []
    case (None, Some(pb)) => Tagged(false, SoloFrom(detect, pb, START))
    case (Some(pa), None) => Tagged(true, SoloFrom(detect, pa, START))
    case (Some(pa), Some(pb)) => LapsFrom(detect, pa, pb, DUAL_START)
  }

  /** Moves the search behind the unlock time and looks for a candidate unless the stock is done. */
  method FindCandidate(detect: Detector, p: Prepared, s: StockState, unlock: Time) returns (r: Option<(Trade, nat)>)
    modifies s`searchFrom
    ensures Candidate(r, s.Now()) == CandidateOf(detect, p, old(s.Now()), unlock)
  {
    hide NextCandidate, SyncedTo;
    var done := LimitsReached(p, s.Now());
    SyncSearchTo(s, p.candles, unlock);
    r := None;
    if !done {
      r := NextValidCandidate(detect, p, s);
    }
  }

  /** The trades so far and those still to come are all the trades of the day. */
  ghost predicate Stands(detect: Detector, a: Prepared, b: Prepared, s: Dual, ra: seq<Trade>, rb: seq<Trade>) {
    var all, left := LapsFrom(detect, a, b, DUAL_START), LapsFrom(detect, a, b, s);
    ra + Of(true, left) == Of(true, all) && rb + Of(false, left) == Of(false, all)
  }

  method LockedLoop(detect: Detector, a: Prepared, b: Prepared) returns (ra: seq<Trade>, rb: seq<Trade>)
    ensures var laps := LapsFrom(detect, a, b, DUAL_START); ra == Of(true, laps) && rb == Of(false, laps)
  {
    hide CandidateOf, Accepted, LapsFrom, LapAt, Of, START, TradesLeft, LimitsReached, Stands;
    var stateA := new StockState();
    var stateB := new StockState();
    var lastUnlock: Time := 0;
    ra, rb := [], [];
    StandsAtStart(detect, a, b);
    while true
      invariant fresh(stateA) && fresh(stateB) && stateA != stateB
      invariant Stands(detect, a, b, Dual(stateA.Now(), stateB.Now(), lastUnlock), ra, rb)
      decreases TradesLeft(a, stateA.Now()) + TradesLeft(b, stateB.Now())
    {
      LapKeepsStanding(detect, a, b, Dual(stateA.Now(), stateB.Now(), lastUnlock), ra, rb);
      var aDone := LimitsReached(a, stateA.Now());
      var bDone := LimitsReached(b, stateB.Now());
      if aDone && bDone {
        break;
      }
      var candA := FindCandidate(detect, a, stateA, lastUnlock);
      var candB := FindCandidate(detect, b, stateB, lastUnlock);
      match (candA, candB) {
        case (Some((ta, ia)), Some((tb, ib))) =>
          if ta.entryTime <= tb.entryTime {
            AcceptTrade(ta, stateA, ia);
            lastUnlock := ta.exitTime;
            ra := ra + [ta];
          } else {
            AcceptTrade(tb, stateB, ib);
            lastUnlock := tb.exitTime;
            rb := rb + [tb];
          }
        case (Some((ta, ia)), None) =>
          AcceptTrade(ta, stateA, ia);
          lastUnlock := ta.exitTime;
          ra := ra + [ta];
        case (None, Some((tb, ib))) =>
          AcceptTrade(tb, stateB, ib);
          lastUnlock := tb.exitTime;
          rb := rb + [tb];
        case (None, None) =>
          break;
      }
    }
  }

  lemma StandsAtStart(detect: Detector, a: Prepared, b: Prepared)
    ensures Stands(detect, a, b, DUAL_START, [], [])
  {
    hide LapsFrom, Of;
    var all := LapsFrom(detect, a, b, DUAL_START);
    assert [] + Of(true, all) == Of(true, all) && [] + Of(false, all) == Of(false, all);
  }

  /** A lap moves one trade from those to come to those so far, and the last lap leaves none to come. */
  lemma LapKeepsStanding(detect: Detector, a: Prepared, b: Prepared, s: Dual, ra: seq<Trade>, rb: seq<Trade>)
    requires Stands(detect, a, b, s, ra, rb)
    ensures var ca, cb := CandidateOf(detect, a, s.a, s.unlock), CandidateOf(detect, b, s.b, s.unlock);
            var takesA := ca.found.Some? && (cb.found.Some? ==> ca.found.value.0.entryTime <= cb.found.value.0.entryTime);
            var all := LapsFrom(detect, a, b, DUAL_START);
            && ((LimitsReached(a, s.a) && LimitsReached(b, s.b)) || (ca.found.None? && cb.found.None?) ==>
                  ra == Of(true, all) && rb == Of(false, all))
            && (takesA ==>
                  var (t, i) := ca.found.value;
                  var next := Dual(Accepted(ca.view, t, i), cb.view, t.exitTime);
                  && Stands(detect, a, b, next, ra + [t], rb)
                  && TradesLeft(a, next.a) + TradesLeft(b, next.b) < TradesLeft(a, s.a) + TradesLeft(b, s.b))
            && (!takesA && cb.found.Some? ==>
                  var (t, i) := cb.found.value;
                  var next := Dual(ca.view, Accepted(cb.view, t, i), t.exitTime);
                  && Stands(detect, a, b, next, ra, rb + [t])
                  && TradesLeft(a, next.a) + TradesLeft(b, next.b) < TradesLeft(a, s.a) + TradesLeft(b, s.b))
  {
    hide CandidateOf, Accepted, LapsFrom, LapAt, Of, TradesLeft, LimitsReached;
    LapUnfolds(detect, a, b, s);
    assert ra + [] == ra && rb + [] == rb;
    assert forall t, left :: ra + ([t] + Of(true, left)) == (ra + [t]) + Of(true, left);
    assert forall t, left :: rb + ([t] + Of(false, left)) == (rb + [t]) + Of(false, left);
  }

  /** What one lap adds to the trades of each stock. */
  lemma LapUnfolds(detect: Detector, a: Prepared, b: Prepared, s: Dual)
    ensures var ca, cb := CandidateOf(detect, a, s.a, s.unlock), CandidateOf(detect, b, s.b, s.unlock);
            var takesA := ca.found.Some? && (cb.found.Some? ==> ca.found.value.0.entryTime <= cb.found.value.0.entryTime);
            var laps := LapsFrom(detect, a, b, s);
            && (LimitsReached(a, s.a) && LimitsReached(b, s.b) ==> Of(true, laps) == [] && Of(false, laps) == [])
            && (ca.found.None? && cb.found.None? ==> Of(true, laps) == [] && Of(false, laps) == [])
            && (takesA ==>
                  var (t, i) := ca.found.value;
                  var next := Dual(Accepted(ca.view, t, i), cb.view, t.exitTime);
                  && Of(true, laps) == [t] + Of(true, LapsFrom(detect, a, b, next))
                  && Of(false, laps) == Of(false, LapsFrom(detect, a, b, next))
                  && TradesLeft(a, next.a) + TradesLeft(b, next.b) < TradesLeft(a, s.a) + TradesLeft(b, s.b))
            && (!takesA && cb.found.Some? ==>
                  var (t, i) := cb.found.value;
                  var next := Dual(ca.view, Accepted(cb.view, t, i), t.exitTime);
                  && Of(true, laps) == Of(true, LapsFrom(detect, a, b, next))
                  && Of(false, laps) == [t] + Of(false, LapsFrom(detect, a, b, next))
                  && TradesLeft(a, next.a) + TradesLeft(b, next.b) < TradesLeft(a, s.a) + TradesLeft(b, s.b))
  {
    hide CandidateOf, Accepted, TradesLeft;
    var step := LapAt(detect, a, b, s);
    if step.Took? {
      OfCons(true, step.lap, LapsFrom(detect, a, b, step.next));
      OfCons(false, step.lap, LapsFrom(detect, a, b, step.next));
    }
  }

  lemma OfCons(isA: bool, lap: Lap, ls: seq<Lap>)
    ensures Of(isA, [lap] + ls) == (if lap.isA == isA then [lap.trade] else []) + Of(isA, ls)
  {
    assert ([lap] + ls)[1..] == ls;
  }

  lemma {:induction false} OfTagged(isA: bool, ts: seq<Trade>)
    ensures Of(isA, Tagged(isA, ts)) == ts && Of(!isA, Tagged(isA, ts)) == []
  {
    if ts != [] {
      OfTagged(isA, ts[1..]);
      OfCons(isA, Lap(isA, ts[0]), Tagged(isA, ts[1..]));
      OfCons(!isA, Lap(isA, ts[0]), Tagged(isA, ts[1..]));
      assert ts == [ts[0]] + ts[1..];
    }
  }

  method SimulateDayLocked(detect: Detector, base: Config, candlesA: seq<Candle>, candlesB: seq<Candle>,
                           multiStage: bool, stages: seq<Stage>)
    returns (ra: seq<Trade>, rb: seq<Trade>)
    ensures var laps := LapsOf(detect, Picked(detect, base, candlesA, multiStage, stages),
                               Picked(detect, base, candlesB, multiStage, stages));
            ra == Of(true, laps) && rb == Of(false, laps)
  {
    hide Picked, SoloFrom, LapsFrom;
    var a := PickStrategyForDay(detect, base, candlesA, multiStage, stages);
    var b := PickStrategyForDay(detect, base, candlesB, multiStage, stages);
    if a.None? {
      ra, rb := [], [];
      if b.Some? {
        rb := RunSolo(detect, b.value);
        OfTagged(false, rb);
      }
    } else if b.None? {
      ra := RunSolo(detect, a.value);
      rb := [];
      OfTagged(true, ra);
    } else {
      ra, rb := LockedLoop(detect, a.value, b.value);
    }
  }

  /** A stock that is prepared alone trades as if searched alone, and the other does not trade. */
  lemma LoneStockKeepsItsTrades(detect: Detector, p: Prepared)
    ensures var (first, second) := (LapsOf(detect, Some(p), None), LapsOf(detect, None, Some(p)));
            && Of(true, first) == Of(false, second) == SoloFrom(detect, p, START)
            && Of(false, first) == Of(true, second) == []
    ensures LapsOf(detect, None, None) == []
  {
    hide SoloFrom;
    OfTagged(true, SoloFrom(detect, p, START));
    OfTagged(false, SoloFrom(detect, p, START));
  }

  /** The first lap of a shared day searches each stock as if alone: from its first candle, with nothing counted. */
  lemma SharedDayOpensAlone(detect: Detector, p: Prepared)
    requires forall i :: 0 <= i < |p.candles| ==> p.candles[i].time > 0
    requires p.cfg.maxDailyTrades > 0 && p.cfg.maxDailyLossPct < 0.0
    ensures CandidateOf(detect, p, DUAL_START.a, DUAL_START.unlock) == NextCandidate(detect, p, View(0, 0, 0.0, None))
    ensures CandidateOf(detect, p, DUAL_START.b, DUAL_START.unlock) == NextCandidate(detect, p, View(0, 0, 0.0, None))
  {
    hide NextCandidate;
    var k := SyncIsExact(START, p.candles, 0);
    assert k == 0;
  }
}

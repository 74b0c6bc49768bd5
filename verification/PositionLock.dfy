/** Safety of the simulated position lock: the trades of a day never overlap. */
module PositionLock {
  import opened Arithmetic
  import opened Wrappers
  import opened Candles
  import opened Trades
  import opened FairValueGaps
  import opened SignalEngine
  import opened ExitSimulation
  import opened TradeSearch
  import opened DaySimulation

  /** Trades in order, each ending before the next one begins. */
  ghost predicate Chain(ts: seq<Trade>) {
    && (forall k :: 0 <= k < |ts| ==> ts[k].entryTime <= ts[k].exitTime)
    && (forall j, k :: 0 <= j < k < |ts| ==> ts[j].exitTime < ts[k].entryTime)
  }

  /** As `Chain`, but a trade may begin on the candle on which the one before ended. */
  ghost predicate WeakChain(ts: seq<Trade>) {
    && (forall k :: 0 <= k < |ts| ==> ts[k].entryTime <= ts[k].exitTime)
    && (forall j, k :: 0 <= j < k < |ts| ==> ts[j].exitTime <= ts[k].entryTime)
  }

  function TradesOf(ls: seq<Lap>): (ts: seq<Trade>)
    ensures |ts| == |ls|
    ensures forall k :: 0 <= k < |ls| ==> ts[k] == ls[k].trade
  {
    if ls == [] then [] else [ls[0].trade] + TradesOf(ls[1..])
  }

  // ---------------------------------------------------------------------------
  // Where the next candidate can lie
  // ---------------------------------------------------------------------------

  ghost predicate AllAfter(cs: seq<Candle>, from: nat, t: int) {
    forall i :: from <= i < |cs| ==> cs[i].time > t
  }

  /** The search has passed every candle up to `t`. */
  lemma SyncPasses(v: View, cs: seq<Candle>, t: Time)
    requires TimeOrdered(cs)
    ensures AllAfter(cs, SyncedTo(v, cs, t).searchFrom, t)
  {
    var k := FirstAfter(cs, t);
    if k < |cs| {
      assert forall i :: k < i < |cs| ==> cs[k].time <= cs[i].time;
    }
  }

  /** A scan's trade lies on two candles of the list, in order. */
  lemma ScanTimes(detect: Detector, p: Prepared, v: View, t: int)
    requires TimeOrdered(p.candles) && v.searchFrom <= |p.candles| && AllAfter(p.candles, v.searchFrom, t)
    requires ScanFromView(detect, p, v).trade.Some?
    ensures var r := ScanFromView(detect, p, v);
            && t < r.trade.value.entryTime <= r.trade.value.exitTime
            && v.searchFrom + r.exitIdx < |p.candles|
            && p.candles[v.searchFrom + r.exitIdx].time >= r.trade.value.exitTime
  {
    hide ScanAndTrade;
    var from := v.searchFrom;
    var slice := p.candles[from..];
    var entry, exit := ScanContract(detect, p.cfg, slice, p.orHigh, p.orLow, true);
    assert slice[entry] == p.candles[from + entry] && slice[exit] == p.candles[from + exit];
    assert slice[ScanFromView(detect, p, v).exitIdx] == p.candles[from + ScanFromView(detect, p, v).exitIdx];
  }

  /** The candidate enters after any time the search has passed, and its exit bounds the next search. */
  lemma {:induction false} CandidateTimes(detect: Detector, p: Prepared, v: View, t: int)
    requires TimeOrdered(p.candles) && AllAfter(p.candles, v.searchFrom, t)
    ensures var c := NextCandidate(detect, p, v);
            c.found.Some? ==>
              var (trade, exitIdx) := c.found.value;
              && t < trade.entryTime <= trade.exitTime
              && c.view.searchFrom + exitIdx < |p.candles|
              && p.candles[c.view.searchFrom + exitIdx].time >= trade.exitTime
    decreases |p.candles| - v.searchFrom
  {
    hide ScanFromView;
    if v.searchFrom < |p.candles| {
      var scan := ScanFromView(detect, p, v);
      if scan.trade.Some? {
        ScanTimes(detect, p, v, t);
        if Rejects(v, scan.trade.value) {
          CandidateTimes(detect, p, v.(searchFrom := v.searchFrom + Max(scan.exitIdx, 1)), t);
        }
      }
    }
  }

  // ---------------------------------------------------------------------------
  // Two stocks
  // ---------------------------------------------------------------------------

  lemma CandidateOfTimes(detect: Detector, p: Prepared, v: View, unlock: Time)
    requires TimeOrdered(p.candles)
    ensures var c := CandidateOf(detect, p, v, unlock);
            c.found.Some? ==> unlock < c.found.value.0.entryTime <= c.found.value.0.exitTime
  {
    hide NextCandidate;
    SyncPasses(v, p.candles, unlock);
    CandidateTimes(detect, p, SyncedTo(v, p.candles, unlock), unlock);
  }

  /** Each lap enters after the lock was released and holds the lock until its own exit. */
  lemma LapTimes(detect: Detector, a: Prepared, b: Prepared, s: Dual)
    requires TimeOrdered(a.candles) && TimeOrdered(b.candles)
    ensures var step := LapAt(detect, a, b, s);
            step.Took? ==>
              s.unlock < step.lap.trade.entryTime <= step.lap.trade.exitTime == step.next.unlock
  {
    hide CandidateOf;
    CandidateOfTimes(detect, a, s.a, s.unlock);
    CandidateOfTimes(detect, b, s.b, s.unlock);
  }

  /** From any state on, the laps form one chain behind the current unlock time. */
  lemma {:induction false} LapsFormChain(detect: Detector, a: Prepared, b: Prepared, s: Dual)
    requires TimeOrdered(a.candles) && TimeOrdered(b.candles)
    ensures var ts := TradesOf(LapsFrom(detect, a, b, s));
            Chain(ts) && forall k :: 0 <= k < |ts| ==> s.unlock < ts[k].entryTime
    decreases TradesLeft(a, s.a) + TradesLeft(b, s.b)
  {
    hide LapAt, TradesLeft;
    var step := LapAt(detect, a, b, s);
    if step.Took? {
      LapTimes(detect, a, b, s);
      LapsFormChain(detect, a, b, step.next);
      var rest := LapsFrom(detect, a, b, step.next);
      ChainCons(step.lap.trade, TradesOf(rest));
      assert ([step.lap] + rest)[1..] == rest;
    }
  }

  lemma ChainCons(t: Trade, ts: seq<Trade>)
    requires Chain(ts) && t.entryTime <= t.exitTime
    requires forall k :: 0 <= k < |ts| ==> t.exitTime < ts[k].entryTime
    ensures Chain([t] + ts)
    ensures forall k :: 0 <= k < |[t] + ts| ==> t.entryTime <= ([t] + ts)[k].entryTime
  {
    var all := [t] + ts;
    forall j, k | 0 <= j < k < |all| ensures all[j].exitTime < all[k].entryTime {
      assert all[k] == ts[k - 1];
      if j > 0 { assert all[j] == ts[j - 1]; }
    }
  }

  /** Of two candidates the lap takes the one that enters earlier; on a tie, stock A's. */
  lemma EarlierCandidateIsTaken(detect: Detector, a: Prepared, b: Prepared, s: Dual)
    requires !LimitsReached(a, s.a) || !LimitsReached(b, s.b)
    ensures var ca, cb := CandidateOf(detect, a, s.a, s.unlock), CandidateOf(detect, b, s.b, s.unlock);
            var step := LapAt(detect, a, b, s);
            && (step == Done <==> ca.found == None && cb.found == None)
            && (step.Took? ==>
                  var (mine, other) := if step.lap.isA then (ca, cb) else (cb, ca);
                  && mine.found.Some? && mine.found.value.0 == step.lap.trade
                  && (other.found.Some? ==>
                        if step.lap.isA then step.lap.trade.entryTime <= other.found.value.0.entryTime
                        else step.lap.trade.entryTime < other.found.value.0.entryTime))
  {
    hide CandidateOf;
  }

  // ---------------------------------------------------------------------------
  // One stock alone
  // ---------------------------------------------------------------------------

  /** A detector that never enters on the first candle it is given. */
  ghost predicate SkipsFirst(detect: Detector) {
    forall cs, cfg :: detect(cs, cfg).Some? ==> detect(cs, cfg).value.idx >= 1
  }

  ghost predicate AllFrom(cs: seq<Candle>, from: nat, t: int) {
    forall i :: from <= i < |cs| ==> cs[i].time >= t
  }

  /** With a detector that skips the first candle and distinct times, entries are strictly later. */
  lemma StrictScanTimes(detect: Detector, p: Prepared, v: View, t: int)
    requires SkipsFirst(detect) && StrictlyOrdered(p.candles)
    requires v.searchFrom <= |p.candles| && AllFrom(p.candles, v.searchFrom, t)
    requires ScanFromView(detect, p, v).trade.Some?
    ensures t < ScanFromView(detect, p, v).trade.value.entryTime
  {
    hide ScanAndTrade;
    var from := v.searchFrom;
    var slice := p.candles[from..];
    var entry, exit := ScanContract(detect, p.cfg, slice, p.orHigh, p.orLow, true);
    assert slice[entry] == p.candles[from + entry];
    assert p.candles[from].time < p.candles[from + entry].time;
  }

  lemma {:induction false} StrictCandidateTimes(detect: Detector, p: Prepared, v: View, t: int)
    requires SkipsFirst(detect) && StrictlyOrdered(p.candles) && AllFrom(p.candles, v.searchFrom, t)
    ensures var c := NextCandidate(detect, p, v); c.found.Some? ==> t < c.found.value.0.entryTime
    decreases |p.candles| - v.searchFrom
  {
    hide ScanFromView;
    if v.searchFrom < |p.candles| {
      var scan := ScanFromView(detect, p, v);
      if scan.trade.Some? {
        StrictScanTimes(detect, p, v, t);
        if Rejects(v, scan.trade.value) {
          StrictCandidateTimes(detect, p, v.(searchFrom := v.searchFrom + Max(scan.exitIdx, 1)), t);
        }
      }
    }
  }

  /** Behind an accepted trade the search stands at its exit candle. */
  lemma NextSearchBound(detect: Detector, p: Prepared, v: View, t: int)
    requires TimeOrdered(p.candles) && AllFrom(p.candles, v.searchFrom, t)
    ensures var c := NextCandidate(detect, p, v);
            c.found.Some? ==>
              var (trade, exitIdx) := c.found.value;
              && t <= trade.entryTime <= trade.exitTime
              && AllFrom(p.candles, Accepted(c.view, trade, exitIdx).searchFrom, trade.exitTime)
  {
    hide NextCandidate, Trade.PnlPct;
    CandidateTimes(detect, p, v, t - 1);
    var c := NextCandidate(detect, p, v);
    if c.found.Some? {
      var k := c.view.searchFrom + c.found.value.1;
      assert forall i :: k < i < |p.candles| ==> p.candles[k].time <= p.candles[i].time;
    }
  }

  /** Alone, a stock's trades form a weak chain; a strict one under the two conditions. */
  lemma {:induction false} SoloFormsChain(detect: Detector, p: Prepared, v: View, t: int)
    requires TimeOrdered(p.candles) && AllFrom(p.candles, v.searchFrom, t)
    ensures var ts := SoloFrom(detect, p, v);
            && WeakChain(ts) && (forall k :: 0 <= k < |ts| ==> t <= ts[k].entryTime)
            && (SkipsFirst(detect) && StrictlyOrdered(p.candles) ==>
                  Chain(ts) && forall k :: 0 <= k < |ts| ==> t < ts[k].entryTime)
    decreases p.cfg.maxDailyTrades - v.tradeCount
  {
    hide NextCandidate, Accepted, SkipsFirst;
    var c := NextCandidate(detect, p, v);
    if !LimitsReached(p, v) && c.found.Some? {
      var (trade, exitIdx) := c.found.value;
      NextSearchBound(detect, p, v, t);
      AcceptedCounts(c.view, trade, exitIdx);
      SoloFormsChain(detect, p, Accepted(c.view, trade, exitIdx), trade.exitTime);
      var rest := SoloFrom(detect, p, Accepted(c.view, trade, exitIdx));
      WeakChainCons(trade, rest);
      if SkipsFirst(detect) && StrictlyOrdered(p.candles) {
        StrictCandidateTimes(detect, p, v, t);
        ChainCons(trade, rest);
      }
    }
  }

  lemma WeakChainCons(t: Trade, ts: seq<Trade>)
    requires WeakChain(ts) && t.entryTime <= t.exitTime
    requires forall k :: 0 <= k < |ts| ==> t.exitTime <= ts[k].entryTime
    ensures WeakChain([t] + ts)
    ensures forall k :: 0 <= k < |[t] + ts| ==> t.entryTime <= ([t] + ts)[k].entryTime
  {
    var all := [t] + ts;
    forall j, k | 0 <= j < k < |all| ensures all[j].exitTime <= all[k].entryTime {
      assert all[k] == ts[k - 1];
      if j > 0 { assert all[j] == ts[j - 1]; }
    }
  }

  // ---------------------------------------------------------------------------
  // The whole day
  // ---------------------------------------------------------------------------

  lemma {:induction false} BetweenContents(cs: seq<Candle>, from: Time, to: int)
    ensures forall c :: c in Between(cs, from, to) ==> c in cs
  {
    if cs != [] {
      BetweenContents(cs[1..], from, to);
    }
  }

  lemma {:induction false} BetweenKeepsOrder(cs: seq<Candle>, from: Time, to: int)
    requires TimeOrdered(cs)
    ensures TimeOrdered(Between(cs, from, to))
    ensures StrictlyOrdered(cs) ==> StrictlyOrdered(Between(cs, from, to))
  {
    hide Between;
    if cs == [] {
      BetweenNone(from, to);
    } else {
      BetweenUnfolds(cs, from, to);
      var rest := Between(cs[1..], from, to);
      TailKeepsOrder(cs);
      BetweenKeepsOrder(cs[1..], from, to);
      BetweenContents(cs[1..], from, to);
      FirstKeepsOrder(cs, rest);
    }
  }

  lemma TailKeepsOrder(cs: seq<Candle>)
    requires TimeOrdered(cs) && cs != []
    ensures TimeOrdered(cs[1..])
    ensures StrictlyOrdered(cs) ==> StrictlyOrdered(cs[1..])
  {
  }

  /** The first candle may stay in front of any ordered candles out of the rest, or be dropped. */
  lemma FirstKeepsOrder(cs: seq<Candle>, rest: seq<Candle>)
    requires cs != [] && TimeOrdered(cs) && TimeOrdered(rest)
    requires forall c :: c in rest ==> c in cs[1..]
    ensures TimeOrdered([cs[0]] + rest) && TimeOrdered([] + rest)
    ensures StrictlyOrdered(cs) && StrictlyOrdered(rest) ==> StrictlyOrdered([cs[0]] + rest) && StrictlyOrdered([] + rest)
  {
    hide TimeOrdered, StrictlyOrdered;
    assert [] + rest == rest;
    forall j | 0 <= j < |rest|
      ensures cs[0].time <= rest[j].time && (StrictlyOrdered(cs) ==> cs[0].time < rest[j].time)
    {
      FirstIsBefore(cs, rest[j]);
    }
    ConsIsOrdered(cs[0], rest);
    if StrictlyOrdered(cs) && StrictlyOrdered(rest) {
      ConsIsStrictlyOrdered(cs[0], rest);
    }
  }

  lemma FirstIsBefore(cs: seq<Candle>, c: Candle)
    requires cs != [] && TimeOrdered(cs) && c in cs[1..]
    ensures cs[0].time <= c.time && (StrictlyOrdered(cs) ==> cs[0].time < c.time)
  {
    var i :| 0 <= i < |cs[1..]| && cs[1..][i] == c;
    assert cs[i + 1] == c;
  }

  lemma ConsIsOrdered(c: Candle, rest: seq<Candle>)
    requires TimeOrdered(rest) && forall j :: 0 <= j < |rest| ==> c.time <= rest[j].time
    ensures TimeOrdered([c] + rest)
  {
  }

  lemma ConsIsStrictlyOrdered(c: Candle, rest: seq<Candle>)
    requires StrictlyOrdered(rest) && forall j :: 0 <= j < |rest| ==> c.time < rest[j].time
    ensures StrictlyOrdered([c] + rest)
  {
  }

  /** Picking a stage keeps the order of the candles. */
  lemma {:induction false} EarliestStageKeepsOrder(detect: Detector, base: Config, candles: seq<Candle>, stages: seq<Stage>, n: nat)
    requires n <= |stages| && TimeOrdered(candles)
    ensures var best := EarliestStage(detect, base, candles, stages, n).1;
            best.Some? ==> TimeOrdered(best.value.candles) && (StrictlyOrdered(candles) ==> StrictlyOrdered(best.value.candles))
  {
    hide FirstEntry, TimeOrdered, StrictlyOrdered;
    if n > 0 {
      EarliestStageKeepsOrder(detect, base, candles, stages, n - 1);
      BetweenKeepsOrder(candles, StageConfig(base, stages[n - 1]).orEnd, DAY_END);
    }
  }

  lemma PickedKeepsOrder(detect: Detector, base: Config, candles: seq<Candle>, multiStage: bool, stages: seq<Stage>)
    requires TimeOrdered(candles)
    ensures var p := Picked(detect, base, candles, multiStage, stages);
            p.Some? ==> TimeOrdered(p.value.candles) && (StrictlyOrdered(candles) ==> StrictlyOrdered(p.value.candles))
  {
    hide EarliestStage, TimeOrdered, StrictlyOrdered;
    BetweenKeepsOrder(candles, base.orEnd, DAY_END);
    EarliestStageKeepsOrder(detect, base, candles, stages, |stages|);
  }

  lemma {:induction false} TradesOfTagged(isA: bool, ts: seq<Trade>)
    ensures TradesOf(Tagged(isA, ts)) == ts
  {
    if ts != [] {
      TradesOfTagged(isA, ts[1..]);
    }
  }

  function DayLaps(detect: Detector, base: Config, candlesA: seq<Candle>, candlesB: seq<Candle>,
                   multiStage: bool, stages: seq<Stage>): seq<Lap>
  {
    LapsOf(detect, Picked(detect, base, candlesA, multiStage, stages), Picked(detect, base, candlesB, multiStage, stages))
  }

  /**
   For any time-ordered candle lists and any detector, the trades of both stocks together form
   one chain: always a weak one, and a strict one whenever both stocks were prepared, or the
   candle times are distinct and the detector never enters on its first candle.
   */
  lemma PositionLockExclusion(detect: Detector, base: Config, candlesA: seq<Candle>, candlesB: seq<Candle>,
                              multiStage: bool, stages: seq<Stage>)
    requires TimeOrdered(candlesA) && TimeOrdered(candlesB)
    ensures var ts := TradesOf(DayLaps(detect, base, candlesA, candlesB, multiStage, stages));
            var both := Picked(detect, base, candlesA, multiStage, stages).Some?
                        && Picked(detect, base, candlesB, multiStage, stages).Some?;
            && WeakChain(ts)
            && (both || (SkipsFirst(detect) && StrictlyOrdered(candlesA) && StrictlyOrdered(candlesB)) ==> Chain(ts))
  {
    hide Picked, SoloFrom, LapsFrom, SkipsFirst, TimeOrdered, StrictlyOrdered, START;
    var a, b := Picked(detect, base, candlesA, multiStage, stages), Picked(detect, base, candlesB, multiStage, stages);
    PickedKeepsOrder(detect, base, candlesA, multiStage, stages);
    PickedKeepsOrder(detect, base, candlesB, multiStage, stages);
    match (a, b)
    case (None, None) =>
    case (None, Some(p)) =>
      SoloFormsChain(detect, p, START, 0);
      TradesOfTagged(false, SoloFrom(detect, p, START));
    case (Some(p), None) =>
      SoloFormsChain(detect, p, START, 0);
      TradesOfTagged(true, SoloFrom(detect, p, START));
    case (Some(pa), Some(pb)) =>
      LapsFormChain(detect, pa, pb, DUAL_START);
      StrictIsWeak(TradesOf(LapsFrom(detect, pa, pb, DUAL_START)));
  }

  lemma StrictIsWeak(ts: seq<Trade>)
    requires Chain(ts)
    ensures WeakChain(ts)
  {
  }

  /** The gap detector of the strategy skips its first three candles. */
  const GAP_DETECTOR: Detector := DetectNext

  lemma GapDetectorSkipsFirst()
    ensures SkipsFirst(GAP_DETECTOR)
  {
    hide DetectNext;
    forall cs, cfg | GAP_DETECTOR(cs, cfg).Some? ensures GAP_DETECTOR(cs, cfg).value.idx >= 1 {
      var formed := DetectionIsRetrace(cs, cfg);
    }
  }

  /** With the strategy's own detector and distinct candle times no two trades of a day ever touch. */
  lemma StrategyTradesNeverTouch(base: Config, candlesA: seq<Candle>, candlesB: seq<Candle>,
                                 multiStage: bool, stages: seq<Stage>)
    requires StrictlyOrdered(candlesA) && StrictlyOrdered(candlesB)
    ensures Chain(TradesOf(DayLaps(GAP_DETECTOR, base, candlesA, candlesB, multiStage, stages)))
  {
    hide DayLaps, Chain, WeakChain, SkipsFirst, Picked;
    GapDetectorSkipsFirst();
    assert TimeOrdered(candlesA) && TimeOrdered(candlesB);
    PositionLockExclusion(GAP_DETECTOR, base, candlesA, candlesB, multiStage, stages);
  }

  // ---------------------------------------------------------------------------
  // Why the detector matters for a stock alone
  // ---------------------------------------------------------------------------

  const FLAT_GAP := Gap(Bullish, 10, 10, 0, 0)

  /** A detector that enters on the first candle it sees. */
  const EAGER: Detector := (cs: seq<Candle>, cfg: SignalConfig) =>
    if |cs| >= 2 then Some(Detected(IntentOf(FLAT_GAP), FLAT_GAP, 0)) else None

  function Quiet(t: Time): Candle { Candle(0, t, 10, 11, 9, 10, 1) }

  const QUIET_RULES := ExitRules(0.0, 1.0, 1, 55500)

  const QUIET_DAY := Prepared(
    Config(2.0, 32400, 33300, 55200, QUIET_RULES, 6, 0.0, -1.0, 5, true),
    [Quiet(36000), Quiet(36300), Quiet(36600)], 5, 1)

  /** A position on quiet candles is closed by the time stop on the next candle, at its entry price. */
  lemma QuietExit(t: Time, rest: seq<Candle>, at: Time)
    requires rest != [] && rest[0] == Quiet(at)
    ensures var e := Entry(Long, 10, 0, 30, t);
            Exit(e, QUIET_RULES, rest) == Some(TradeAt(e, Fill(10, TimeStop), at))
  {
    var e := Entry(Long, 10, 0, 30, t);
    assert 10.0 * 1.0 == 10.0;
    assert ShareOf(e.Risk(), 1.0) == 10;
    var u := Updated(e, Opening(e), 11, QUIET_RULES);
    assert u == Tracker(0, 11, false);
    assert FillOn(e, Opening(e), rest[0], 0, QUIET_RULES) == Some(Fill(10, TimeStop));
  }

  lemma QuietEntry(t: Time)
    ensures EntryOf(Detected(IntentOf(FLAT_GAP), FLAT_GAP, 0), QUIET_DAY.cfg, t) == Entry(Long, 10, 0, 30, t)
  {
    assert 10.0 * 2.0 == 20.0;
  }

  lemma QuietScan(v: View, t: Time, next: Time)
    requires v.searchFrom + 1 < |QUIET_DAY.candles|
    requires QUIET_DAY.candles[v.searchFrom] == Quiet(t) && QUIET_DAY.candles[v.searchFrom + 1] == Quiet(next)
    requires t < next
    ensures var r := ScanFromView(EAGER, QUIET_DAY, v);
            && r.trade == Some(TradeAt(Entry(Long, 10, 0, 30, t), Fill(10, TimeStop), next))
            && r.exitIdx == 1
  {
    hide Exit, EntryOf, IntentOf;
    var slice := QUIET_DAY.candles[v.searchFrom..];
    assert slice[0] == Quiet(t) && slice[1] == Quiet(next);
    assert slice[1..][0] == Quiet(next);
    QuietEntry(t);
    QuietExit(t, slice[1..], next);
    var k := FirstAtOrAfter(slice, next);
    assert k == 1;
  }

  /**
   Searched alone, a stock whose detector may enter on its first candle can enter on the very
   candle on which its previous trade ended, even on distinct candle times.
   */
  lemma EagerDetectorTouches()
    ensures StrictlyOrdered(QUIET_DAY.candles)
    ensures var ts := SoloFrom(EAGER, QUIET_DAY, START);
            |ts| >= 2 && ts[0].exitTime == ts[1].entryTime && !Chain(ts)
  {
    hide ScanFromView;
    QuietScan(START, 36000, 36300);
    var t1 := ScanFromView(EAGER, QUIET_DAY, START).trade.value;
    var v := Accepted(START, t1, 1);
    assert t1.PnlPct() == 0.0;
    assert v == View(1, 1, 0.0, None);
    QuietScan(v, 36300, 36600);
    var t2 := ScanFromView(EAGER, QUIET_DAY, v).trade.value;
    assert NextCandidate(EAGER, QUIET_DAY, START) == Candidate(Some((t1, 1)), START);
    assert NextCandidate(EAGER, QUIET_DAY, v) == Candidate(Some((t2, 1)), v);
    var ts := SoloFrom(EAGER, QUIET_DAY, START);
    assert ts == [t1] + SoloFrom(EAGER, QUIET_DAY, v);
    assert SoloFrom(EAGER, QUIET_DAY, v) == [t2] + SoloFrom(EAGER, QUIET_DAY, Accepted(v, t2, 1));
    assert ts[0] == t1 && ts[1] == t2;
  }

  // ---------------------------------------------------------------------------
  // Limits under the lock
  // ---------------------------------------------------------------------------

  lemma CandidateOfKeepsSummary(detect: Detector, p: Prepared, v: View, unlock: Time, ts: seq<Trade>)
    requires Summarises(v, ts)
    ensures var c := CandidateOf(detect, p, v, unlock);
            && Summarises(c.view, ts)
            && (c.found.Some? ==> !LimitsReached(p, c.view) && !Rejects(c.view, c.found.value.0))
  {
    hide NextCandidate;
    var synced := SyncedTo(v, p.candles, unlock);
    CandidateFitsSide(detect, p, synced);
    CandidateKeepsSummary(detect, p, synced, ts);
  }

  /** Both stocks keep their own limits although they take turns. */
  lemma {:induction false} LapsWithinLimits(detect: Detector, a: Prepared, b: Prepared, s: Dual,
                                            beforeA: seq<Trade>, beforeB: seq<Trade>)
    requires WithinLimits(a.cfg, beforeA) && Summarises(s.a, beforeA)
    requires WithinLimits(b.cfg, beforeB) && Summarises(s.b, beforeB)
    ensures WithinLimits(a.cfg, beforeA + Of(true, LapsFrom(detect, a, b, s)))
    ensures WithinLimits(b.cfg, beforeB + Of(false, LapsFrom(detect, a, b, s)))
    decreases TradesLeft(a, s.a) + TradesLeft(b, s.b)
  {
    hide CandidateOf, WithinLimits, Summarises, Accepted, TradesLeft, LimitsReached, Rejects, Of, LapAt, LapsFrom;
    var ca, cb := CandidateOf(detect, a, s.a, s.unlock), CandidateOf(detect, b, s.b, s.unlock);
    CandidateOfKeepsSummary(detect, a, s.a, s.unlock, beforeA);
    CandidateOfKeepsSummary(detect, b, s.b, s.unlock, beforeB);
    LapUnfolds(detect, a, b, s);
    assert beforeA + [] == beforeA && beforeB + [] == beforeB;
    var takesA := ca.found.Some? && (cb.found.Some? ==> ca.found.value.0.entryTime <= cb.found.value.0.entryTime);
    if LimitsReached(a, s.a) && LimitsReached(b, s.b) {
    } else if takesA {
      var (t, i) := ca.found.value;
      var next := Dual(Accepted(ca.view, t, i), cb.view, t.exitTime);
      AcceptKeepsLimits(a, ca.view, beforeA, t, i);
      LapsWithinLimits(detect, a, b, next, beforeA + [t], beforeB);
      assert beforeA + ([t] + Of(true, LapsFrom(detect, a, b, next))) == (beforeA + [t]) + Of(true, LapsFrom(detect, a, b, next));
    } else if cb.found.Some? {
      var (t, i) := cb.found.value;
      var next := Dual(ca.view, Accepted(cb.view, t, i), t.exitTime);
      AcceptKeepsLimits(b, cb.view, beforeB, t, i);
      LapsWithinLimits(detect, a, b, next, beforeA, beforeB + [t]);
      assert beforeB + ([t] + Of(false, LapsFrom(detect, a, b, next))) == (beforeB + [t]) + Of(false, LapsFrom(detect, a, b, next));
    }
  }

  /** On a shared day each stock makes at most its number of trades, begins each above its loss limit, and repeats winners on their side. */
  lemma SharedDayWithinLimits(detect: Detector, a: Prepared, b: Prepared)
    ensures var laps := LapsFrom(detect, a, b, DUAL_START);
            WithinLimits(a.cfg, Of(true, laps)) && WithinLimits(b.cfg, Of(false, laps))
  {
    hide LapsFrom, Of;
    assert WithinLimits(a.cfg, []) && WithinLimits(b.cfg, []) && Summarises(START, []);
    LapsWithinLimits(detect, a, b, DUAL_START, [], []);
    var laps := LapsFrom(detect, a, b, DUAL_START);
    assert [] + Of(true, laps) == Of(true, laps) && [] + Of(false, laps) == Of(false, laps);
  }
}

/** Detection of the next entry: a breakout gap, then a retrace into it before it expires. */
module SignalEngine {
  import opened Arithmetic
  import opened Wrappers
  import opened Candles
  import opened Trades
  import opened FairValueGaps

  datatype SignalConfig = SignalConfig(
    orHigh: int, orLow: int, fvgExpiryCandles: nat, entryCutoff: Time,
    requireOrBreakout: bool, minOrBreakoutPct: real, longOnly: bool, confirmedSide: Option<Side>)

  datatype Detected = Detected(intent: Intent, gap: Gap, idx: nat)

  /** How far a close lies beyond the opening range, as a fraction of its edge. */
  function BreakoutPct(cfg: SignalConfig, side: Side, close: int): Option<real> {
    match side
    case Long => if cfg.orHigh > 0 then Some((close - cfg.orHigh) as real / cfg.orHigh as real) else None
    case Short => if cfg.orLow > 0 then Some((cfg.orLow - close) as real / cfg.orLow as real) else None
  }

  predicate BreakoutOk(cfg: SignalConfig, side: Side, close: int, pct: real) {
    || !cfg.requireOrBreakout
    || ((match side case Long => close > cfg.orHigh case Short => close < cfg.orLow) && pct >= cfg.minOrBreakoutPct)
  }

  predicate SideOk(cfg: SignalConfig, side: Side) {
    cfg.confirmedSide == None || cfg.confirmedSide == Some(side)
  }

  /** The body of the middle candle is at least 30% of the first candle's range. */
  predicate BodyOk(a: Candle, b: Candle) {
    Abs(b.close - b.open) * 100 >= Max(a.high - a.low, 1) * 30
  }

  /** The gap completed by candle `idx`, if it qualifies. */
  function NewGap(cs: seq<Candle>, idx: nat, cfg: SignalConfig): Option<Gap>
    requires 2 <= idx < |cs|
  {
    var a, b, c := cs[idx - 2], cs[idx - 1], cs[idx];
    if b.close > b.open && a.high < c.low && BodyOk(a, b) then
      var pct := BreakoutPct(cfg, Long, b.close);
      if pct.Some? && BreakoutOk(cfg, Long, b.close, pct.value) && SideOk(cfg, Long)
      then Some(Gap(Bullish, c.low, a.high, idx - 1, a.low))
      else None
    else if !cfg.longOnly && b.close < b.open && a.low > c.high && BodyOk(a, b) then
      var pct := BreakoutPct(cfg, Short, b.close);
      if pct.Some? && BreakoutOk(cfg, Short, b.close, pct.value) && SideOk(cfg, Short)
      then Some(Gap(Bearish, a.low, c.high, idx - 1, a.high))
      else None
    else None
  }

  /**
   When a gap may be entered: the middle candle goes the gap's way with a body of at least 30% of
   the first candle's range (a range below 1 counting as 1), the edge of the opening range on the
   gap's side is positive and, where a breakout is required, the middle candle closes beyond that
   edge, by at least the minimum fraction of it; the side is the confirmed one, if there is one,
   and bullish if only long positions are allowed.
   */
  predicate Qualifies(cs: seq<Candle>, cfg: SignalConfig, g: Gap)
    requires 1 <= g.candleBIdx < |cs| - 1
  {
    var a, b := cs[g.candleBIdx - 1], cs[g.candleBIdx];
    var range := if a.high - a.low >= 1 then a.high - a.low else 1;
    match g.direction
    case Bullish =>
      && b.close > b.open && 100 * (b.close - b.open) >= 30 * range
      && cfg.orHigh > 0
      && (cfg.requireOrBreakout ==>
            && b.close > cfg.orHigh
            && (b.close - cfg.orHigh) as real >= cfg.minOrBreakoutPct * cfg.orHigh as real)
      && cfg.confirmedSide in {None, Some(Long)}
    case Bearish =>
      && b.close < b.open && 100 * (b.open - b.close) >= 30 * range
      && cfg.orLow > 0
      && (cfg.requireOrBreakout ==>
            && b.close < cfg.orLow
            && (cfg.orLow - b.close) as real >= cfg.minOrBreakoutPct * cfg.orLow as real)
      && cfg.confirmedSide in {None, Some(Short)}
      && !cfg.longOnly
  }

  /** The gap completed by a candle is the qualifying gap of the last three candles, if they have one. */
  lemma NewGapExact(cs: seq<Candle>, idx: nat, cfg: SignalConfig, g: Gap)
    requires 2 <= idx < |cs|
    ensures NewGap(cs, idx, cfg) == Some(g) <==> g.candleBIdx == idx - 1 && IsHole(cs, g) && Qualifies(cs, cfg, g)
  {
    var b := cs[idx - 1];
    BreakoutShare(b.close - cfg.orHigh, cfg.orHigh, cfg.minOrBreakoutPct);
    BreakoutShare(cfg.orLow - b.close, cfg.orLow, cfg.minOrBreakoutPct);
  }

  lemma BreakoutShare(distance: int, edge: int, share: real)
    ensures edge > 0 ==> (distance as real / edge as real >= share <==> distance as real >= share * edge as real)
  {
    if edge > 0 {
      var q := distance as real / edge as real;
      QuotientTimesDivisor(distance as real, edge as real);
      CancelFactor(share, q, edge as real);
      CancelFactor(q, share, edge as real);
    }
  }

  /** The price that has to come back into the gap. */
  function RetracePrice(g: Gap, c: Candle): int {
    match g.Side()
    case Long => c.low
    case Short => c.high
  }

  datatype Pending = Pending(gap: Gap, formed: nat)

  datatype ScanStep = Halt | Go(pending: Option<Pending>) | Signal(gap: Gap)

  /** One turn of the scan, at candle `idx`. */
  function ScanAt(cs: seq<Candle>, idx: nat, pending: Option<Pending>, cfg: SignalConfig): ScanStep
    requires idx < |cs|
  {
    if cs[idx].time >= cfg.entryCutoff then Halt
    else
      var live := if pending.Some? && idx - pending.value.formed > cfg.fvgExpiryCandles then None else pending;
      if live.None? then
        if idx >= 2 && NewGap(cs, idx, cfg).Some? then Go(Some(Pending(NewGap(cs, idx, cfg).value, idx))) else Go(None)
      else if live.value.gap.ContainsPrice(RetracePrice(live.value.gap, cs[idx])) then Signal(live.value.gap)
      else Go(live)
  }

  function ScanFrom(cs: seq<Candle>, idx: nat, pending: Option<Pending>, cfg: SignalConfig): (r: Option<Detected>)
    requires idx <= |cs|
    ensures r.Some? ==> idx <= r.value.idx < |cs|
    decreases |cs| - idx
  {
    if idx == |cs| then None
    else
      match ScanAt(cs, idx, pending, cfg)
      case Halt => None
      case Go(next) => ScanFrom(cs, idx + 1, next, cfg)
      case Signal(g) => Some(Detected(IntentOf(g), g, idx))
  }

  function DetectNext(cs: seq<Candle>, cfg: SignalConfig): (r: Option<Detected>)
    ensures r.Some? ==> r.value.idx < |cs|
  {
    ScanFrom(cs, 0, None, cfg)
  }

  method DetectNextFvgSignal(candles: seq<Candle>, cfg: SignalConfig) returns (r: Option<Detected>)
    ensures r == DetectNext(candles, cfg)
  {
    hide NewGap, BreakoutOk, BreakoutPct, BodyOk;
    var pendingGap: Option<Gap> := None;
    var formedIdx := 0;
    for idx := 0 to |candles|
      invariant ScanFrom(candles, idx, (if pendingGap.Some? then Some(Pending(pendingGap.value, formedIdx)) else None), cfg)
             == DetectNext(candles, cfg)
    {
      if candles[idx].time >= cfg.entryCutoff {
        return None;
      }
      if pendingGap.Some? && idx - formedIdx > cfg.fvgExpiryCandles {
        pendingGap := None;
      }
      if pendingGap.None? && idx >= 2 {
        var completed := NewGap(candles, idx, cfg);
        if completed.Some? {
          pendingGap := completed;
          formedIdx := idx;
          continue;
        }
      }
      if pendingGap.Some? {
        if pendingGap.value.ContainsPrice(RetracePrice(pendingGap.value, candles[idx])) {
          return Some(Detected(IntentOf(pendingGap.value), pendingGap.value, idx));
        }
      }
    }
    r := None;
  }

  // ---------------------------------------------------------------------------
  // What a detection is
  // ---------------------------------------------------------------------------

  /**
   The one-pending-gap rule: the gap completed at candle `f` is watched when no gap watched
   before it is still unexpired there.
   */
  ghost predicate Watched(cs: seq<Candle>, cfg: SignalConfig, f: nat) {
    && 2 <= f < |cs|
    && NewGap(cs, f, cfg).Some?
    && forall g: nat :: g < f <= g + cfg.fvgExpiryCandles ==> !Watched(cs, cfg, g)
  }

  /** The extreme of candle `i` comes back into the watched gap of candle `f` in time and before the cutoff. */
  ghost predicate Confirms(cs: seq<Candle>, cfg: SignalConfig, f: nat, i: nat) {
    && Watched(cs, cfg, f)
    && f < i < |cs| && i <= f + cfg.fvgExpiryCandles
    && NewGap(cs, f, cfg).value.ContainsPrice(RetracePrice(NewGap(cs, f, cfg).value, cs[i]))
    && forall k :: 0 <= k <= i ==> cs[k].time < cfg.entryCutoff
  }

  ghost predicate NoneConfirmedBetween(cs: seq<Candle>, cfg: SignalConfig, lo: nat, hi: nat) {
    forall f: nat, i: nat :: lo <= i < hi ==> !Confirms(cs, cfg, f, i)
  }

  /** The first candle that confirms any watched gap, with that gap; or no such candle at all. */
  ghost predicate IsFirstConfirmation(cs: seq<Candle>, cfg: SignalConfig, lo: nat, r: Option<Detected>) {
    match r
    case None => NoneConfirmedBetween(cs, cfg, lo, |cs|)
    case Some(d) =>
      && NoneConfirmedBetween(cs, cfg, lo, d.idx)
      && exists f :: Confirms(cs, cfg, f, d.idx) && d == DetectionOf(cs, cfg, f, d.idx)
  }

  function DetectionOf(cs: seq<Candle>, cfg: SignalConfig, f: nat, i: nat): Detected
    requires 2 <= f < |cs| && NewGap(cs, f, cfg).Some?
  {
    Detected(IntentOf(NewGap(cs, f, cfg).value), NewGap(cs, f, cfg).value, i)
  }

  /** At candle `idx` the pending gap is the watched one that is not expired, if there is any. */
  ghost predicate PendingIsWatched(cs: seq<Candle>, idx: nat, pending: Option<Pending>, cfg: SignalConfig) {
    && (pending.Some? ==>
          var f := pending.value.formed;
          f < idx && Watched(cs, cfg, f) && NewGap(cs, f, cfg) == Some(pending.value.gap))
    && (forall f: nat :: f < idx <= f + cfg.fvgExpiryCandles && Watched(cs, cfg, f) ==>
          pending.Some? && pending.value.formed == f)
  }

  lemma TurnKeepsPending(cs: seq<Candle>, idx: nat, pending: Option<Pending>, cfg: SignalConfig)
    requires idx < |cs| && PendingIsWatched(cs, idx, pending, cfg)
    requires ScanAt(cs, idx, pending, cfg).Go?
    ensures PendingIsWatched(cs, idx + 1, ScanAt(cs, idx, pending, cfg).pending, cfg)
  {
    hide NewGap, RetracePrice, Gap.ContainsPrice;
    var next := ScanAt(cs, idx, pending, cfg).pending;
    var expired := pending.Some? && idx > pending.value.formed + cfg.fvgExpiryCandles;
    if pending.None? || expired {
      assert forall g: nat :: g < idx <= g + cfg.fvgExpiryCandles ==> !Watched(cs, cfg, g);
      assert Watched(cs, cfg, idx) <==> next.Some?;
    } else {
      assert Watched(cs, cfg, pending.value.formed) && !Watched(cs, cfg, idx);
    }
  }

  /** A turn signals exactly when its candle confirms a watched gap. */
  lemma TurnSignals(cs: seq<Candle>, idx: nat, pending: Option<Pending>, cfg: SignalConfig)
    requires idx < |cs| && PendingIsWatched(cs, idx, pending, cfg)
    requires forall i :: 0 <= i < idx ==> cs[i].time < cfg.entryCutoff
    ensures var step := ScanAt(cs, idx, pending, cfg);
            && (step.Signal? ==>
                  && pending.Some? && Confirms(cs, cfg, pending.value.formed, idx)
                  && NewGap(cs, pending.value.formed, cfg) == Some(step.gap))
            && (!step.Signal? ==> forall f: nat :: !Confirms(cs, cfg, f, idx))
  {
    hide NewGap, RetracePrice, Gap.ContainsPrice, Watched;
  }

  lemma {:induction false} ScanIsFirstConfirmation(cs: seq<Candle>, idx: nat, pending: Option<Pending>, cfg: SignalConfig)
    requires idx <= |cs| && PendingIsWatched(cs, idx, pending, cfg)
    requires forall i :: 0 <= i < idx ==> cs[i].time < cfg.entryCutoff
    ensures IsFirstConfirmation(cs, cfg, idx, ScanFrom(cs, idx, pending, cfg))
    decreases |cs| - idx
  {
    hide NewGap, Watched, PendingIsWatched, RetracePrice, Gap.ContainsPrice;
    if idx < |cs| {
      TurnSignals(cs, idx, pending, cfg);
      match ScanAt(cs, idx, pending, cfg)
      case Halt =>
      case Signal(_) =>
        assert Confirms(cs, cfg, pending.value.formed, idx);
      case Go(next) =>
        TurnKeepsPending(cs, idx, pending, cfg);
        ScanIsFirstConfirmation(cs, idx + 1, next, cfg);
    }
  }

  /** Two watched gaps are never alive together. */
  lemma OneGapAtATime(cs: seq<Candle>, cfg: SignalConfig, f: nat, g: nat, i: nat)
    requires Confirms(cs, cfg, f, i) && Confirms(cs, cfg, g, i)
    ensures f == g
  {
    hide NewGap, RetracePrice, Gap.ContainsPrice;
  }

  lemma FirstConfirmationIsUnique(cs: seq<Candle>, cfg: SignalConfig, r: Option<Detected>, r': Option<Detected>)
    requires IsFirstConfirmation(cs, cfg, 0, r) && IsFirstConfirmation(cs, cfg, 0, r')
    ensures r == r'
  {
    hide NewGap, RetracePrice, Gap.ContainsPrice;
    if r.Some? && r'.Some? {
      var f :| Confirms(cs, cfg, f, r.value.idx) && r.value == DetectionOf(cs, cfg, f, r.value.idx);
      var g :| Confirms(cs, cfg, g, r'.value.idx) && r'.value == DetectionOf(cs, cfg, g, r'.value.idx);
      assert r.value.idx == r'.value.idx;
      OneGapAtATime(cs, cfg, f, g, r.value.idx);
    }
  }

  /**
   The detection is the first candle that confirms a watched gap, and there is none exactly when
   no candle before the cutoff ever does.
   */
  lemma DetectionExact(cs: seq<Candle>, cfg: SignalConfig, r: Option<Detected>)
    ensures DetectNext(cs, cfg) == r <==> IsFirstConfirmation(cs, cfg, 0, r)
  {
    hide IsFirstConfirmation, ScanFrom;
    ScanIsFirstConfirmation(cs, 0, None, cfg);
    if IsFirstConfirmation(cs, cfg, 0, r) {
      FirstConfirmationIsUnique(cs, cfg, r, DetectNext(cs, cfg));
    }
  }

  /** The gap was completed before, is not expired, and the candle's extreme lies inside it. */
  ghost predicate IsRetraceOf(cs: seq<Candle>, cfg: SignalConfig, d: Detected, formed: nat) {
    && 2 <= formed < d.idx < |cs|
    && d.idx - formed <= cfg.fvgExpiryCandles
    && NewGap(cs, formed, cfg) == Some(d.gap)
    && d.intent == IntentOf(d.gap)
    && d.gap.ContainsPrice(RetracePrice(d.gap, cs[d.idx]))
    && forall i :: 0 <= i <= d.idx ==> cs[i].time < cfg.entryCutoff
  }

  /** A detection is a retrace into an unexpired breakout gap, so it never falls on the first three candles. */
  lemma DetectionIsRetrace(cs: seq<Candle>, cfg: SignalConfig) returns (formed: nat)
    requires DetectNext(cs, cfg).Some?
    ensures IsRetraceOf(cs, cfg, DetectNext(cs, cfg).value, formed)
    ensures DetectNext(cs, cfg).value.idx >= 3
  {
    hide NewGap, ScanFrom, RetracePrice, Gap.ContainsPrice;
    ScanIsFirstConfirmation(cs, 0, None, cfg);
    var d := DetectNext(cs, cfg).value;
    formed :| Confirms(cs, cfg, formed, d.idx) && d == DetectionOf(cs, cfg, formed, d.idx);
  }

  /** On sound candles a detected gap is one of the gaps of the list, so its plans are brackets. */
  lemma DetectedGapIsReal(cs: seq<Candle>, cfg: SignalConfig)
    requires Sound(cs) && DetectNext(cs, cfg).Some?
    ensures IsGapAt(cs, DetectNext(cs, cfg).value.gap)
    ensures WellFormed(DetectNext(cs, cfg).value.gap)
  {
    var formed := DetectionIsRetrace(cs, cfg);
    assert cs[formed].low <= cs[formed].high && cs[formed - 2].low <= cs[formed - 2].high;
    GapsAreWellFormed(cs, DetectNext(cs, cfg).value.gap);
  }

  lemma ScanAtLooksBack(cs: seq<Candle>, ds: seq<Candle>, idx: nat, pending: Option<Pending>, cfg: SignalConfig)
    requires idx < |cs| && idx < |ds| && cs[..idx + 1] == ds[..idx + 1]
    ensures ScanAt(cs, idx, pending, cfg) == ScanAt(ds, idx, pending, cfg)
  {
    assert cs[idx] == cs[..idx + 1][idx] == ds[idx];
    if idx >= 2 {
      assert cs[idx - 1] == cs[..idx + 1][idx - 1] == ds[idx - 1];
      assert cs[idx - 2] == cs[..idx + 1][idx - 2] == ds[idx - 2];
    }
  }

  lemma {:induction false} ScanIsOnline(cs: seq<Candle>, ds: seq<Candle>, idx: nat, pending: Option<Pending>, cfg: SignalConfig)
    requires idx <= |cs| && ScanFrom(cs, idx, pending, cfg).Some?
    requires var n := ScanFrom(cs, idx, pending, cfg).value.idx + 1; n <= |ds| && cs[..n] == ds[..n]
    ensures ScanFrom(ds, idx, pending, cfg) == ScanFrom(cs, idx, pending, cfg)
    decreases |cs| - idx
  {
    hide ScanAt;
    var n := ScanFrom(cs, idx, pending, cfg).value.idx + 1;
    assert cs[..idx + 1] == cs[..n][..idx + 1] == ds[..idx + 1];
    ScanAtLooksBack(cs, ds, idx, pending, cfg);
    match ScanAt(cs, idx, pending, cfg)
    case Go(next) => ScanIsOnline(cs, ds, idx + 1, next, cfg);
    case Signal(_) =>
  }

  /** No look-ahead: whatever follows the retrace candle, the detection is the same. */
  lemma DetectionIsOnline(cs: seq<Candle>, ds: seq<Candle>, cfg: SignalConfig)
    requires DetectNext(cs, cfg).Some?
    requires var n := DetectNext(cs, cfg).value.idx + 1; n <= |ds| && cs[..n] == ds[..n]
    ensures DetectNext(ds, cfg) == DetectNext(cs, cfg)
  {
    ScanIsOnline(cs, ds, 0, None, cfg);
  }

  /** In plain terms: side, zone and stop of a detection are its gap's, and the confirming candle's low (long) or high (short) lies within the gap. */
  lemma DetectionSpelledOut(cs: seq<Candle>, cfg: SignalConfig) returns (formed: nat)
    requires DetectNext(cs, cfg).Some?
    ensures var d := DetectNext(cs, cfg).value;
            && 2 <= formed < d.idx < |cs| && d.idx - formed <= cfg.fvgExpiryCandles
            && d.gap.candleBIdx == formed - 1 && IsHole(cs, d.gap) && Qualifies(cs, cfg, d.gap)
            && d.intent == Intent(if d.gap.direction == Bullish then Long else Short, d.gap.top, d.gap.bottom, d.gap.stopLoss)
            && (d.intent.side == Long ==> d.gap.bottom <= cs[d.idx].low <= d.gap.top)
            && (d.intent.side == Short ==> d.gap.bottom <= cs[d.idx].high <= d.gap.top)
  {
    hide NewGap, DetectNext, Qualifies, IsHole;
    formed := DetectionIsRetrace(cs, cfg);
    NewGapExact(cs, formed, cfg, DetectNext(cs, cfg).value.gap);
  }

  /** A long-only strategy detects no short entry, and a required breakout is a close beyond the range with the minimum strength. */
  lemma DetectionHonoursConfig(cs: seq<Candle>, cfg: SignalConfig)
    requires DetectNext(cs, cfg).Some?
    ensures var d := DetectNext(cs, cfg).value;
            && (cfg.longOnly ==> d.intent.side == Long)
            && (cfg.confirmedSide.Some? ==> d.intent.side == cfg.confirmedSide.value)
            && 1 <= d.gap.candleBIdx < d.idx - 1
            && (cfg.requireOrBreakout && d.intent.side == Long ==> cs[d.gap.candleBIdx].close > cfg.orHigh)
            && (cfg.requireOrBreakout && d.intent.side == Short ==> cs[d.gap.candleBIdx].close < cfg.orLow)
  {
    hide DetectNext, IsHole;
    var formed := DetectionSpelledOut(cs, cfg);
  }
}

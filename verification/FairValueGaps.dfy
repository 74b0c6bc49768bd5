/** Fair value gaps, and the entry plans built on them. */
module FairValueGaps {
  import opened Arithmetic
  import opened Wrappers
  import opened Candles
  import opened Trades

  datatype Direction = Bullish | Bearish

  datatype Gap = Gap(direction: Direction, top: int, bottom: int, candleBIdx: nat, stopLoss: int)
  {
    predicate ContainsPrice(price: int) {
      bottom <= price <= top
    }

    /** The middle, rounded toward zero. */
    function MidPrice(): int {
      TruncDiv(top + bottom, 2)
    }

    function Side(): Side {
      match direction
      case Bullish => Long
      case Bearish => Short
    }
  }

  /** The gap left by candles a, b, c, where `b` has index `bIdx`. */
  function GapOf(a: Candle, c: Candle, bIdx: nat): Option<Gap> {
    if a.high < c.low then Some(Gap(Bullish, c.low, a.high, bIdx, a.low))
    else if a.low > c.high then Some(Gap(Bearish, a.low, c.high, bIdx, a.high))
    else None
  }

  /** The gaps of the first `n` triples, in order. */
  function GapsOf(cs: seq<Candle>, n: nat): seq<Gap>
    requires n == 0 || n + 2 <= |cs|
  {
    if n == 0 then []
    else
      var g := GapOf(cs[n - 1], cs[n + 1], n);
      GapsOf(cs, n - 1) + if g.Some? then [g.value] else []
  }

  method DetectFvg(candles: seq<Candle>) returns (gaps: seq<Gap>)
    ensures gaps == GapsOf(candles, if |candles| < 3 then 0 else |candles| - 2)
  {
    gaps := [];
    if |candles| < 3 {
      return;
    }
    for i := 0 to |candles| - 2
      invariant gaps == GapsOf(candles, i)
    {
      var a, c := candles[i], candles[i + 2];
      if a.high < c.low {
        gaps := gaps + [Gap(Bullish, c.low, a.high, i + 1, a.low)];
      } else if a.low > c.high {
        gaps := gaps + [Gap(Bearish, a.low, c.high, i + 1, a.high)];
      }
    }
  }

  ghost predicate Sound(cs: seq<Candle>) {
    forall i :: 0 <= i < |cs| ==> cs[i].low <= cs[i].high
  }

  /** The gap really is a hole between the candles around its middle candle. */
  predicate IsGapAt(cs: seq<Candle>, g: Gap) {
    && 1 <= g.candleBIdx < |cs| - 1
    && GapOf(cs[g.candleBIdx - 1], cs[g.candleBIdx + 1], g.candleBIdx) == Some(g)
  }

  /** Detection lists exactly the gaps there are, each once and in order of their place. */
  lemma {:induction false} GapsAreExact(cs: seq<Candle>, n: nat, g: Gap)
    requires n == 0 || n + 2 <= |cs|
    ensures g in GapsOf(cs, n) <==> IsGapAt(cs, g) && g.candleBIdx <= n
    ensures forall i, j :: 0 <= i < j < |GapsOf(cs, n)| ==> GapsOf(cs, n)[i].candleBIdx < GapsOf(cs, n)[j].candleBIdx
  {
    if n > 0 {
      GapsAreExact(cs, n - 1, g);
      var before := GapsOf(cs, n - 1);
      forall i | 0 <= i < |before| ensures before[i].candleBIdx < n {
        GapsAreExact(cs, n - 1, before[i]);
      }
    }
  }

  /**
   A bullish hole lies between the first high and the third low, with the first low as its stop; a
   bearish one between the third high and the first low, with the first high as its stop.
   */
  predicate IsHole(cs: seq<Candle>, g: Gap) {
    && 1 <= g.candleBIdx < |cs| - 1
    && g.bottom < g.top
    && var (a, c) := (cs[g.candleBIdx - 1], cs[g.candleBIdx + 1]);
       match g.direction
       case Bullish => g.bottom == a.high && g.top == c.low && g.stopLoss == a.low
       case Bearish => g.bottom == c.high && g.top == a.low && g.stopLoss == a.high
  }

  /** Gaps are holes; on candles whose low exceeds their high, a bullish hole goes first. */
  lemma GapsAreHoles(cs: seq<Candle>, g: Gap)
    ensures IsGapAt(cs, g) <==>
              && IsHole(cs, g)
              && (g.direction == Bearish ==> cs[g.candleBIdx + 1].low <= cs[g.candleBIdx - 1].high)
    ensures Sound(cs) ==> (IsGapAt(cs, g) <==> IsHole(cs, g))
  {
  }

  /** The stop lies at or beyond the far edge of the hole. */
  predicate WellFormed(g: Gap) {
    && g.bottom < g.top
    && match g.direction
       case Bullish => g.stopLoss <= g.bottom
       case Bearish => g.top <= g.stopLoss
  }

  lemma GapsAreWellFormed(cs: seq<Candle>, g: Gap)
    requires Sound(cs) && IsGapAt(cs, g)
    ensures WellFormed(g)
  {
    assert cs[g.candleBIdx - 1].low <= cs[g.candleBIdx - 1].high;
  }

  // ---------------------------------------------------------------------------
  // Plans
  // ---------------------------------------------------------------------------

  datatype Intent = Intent(side: Side, entryZoneHigh: int, entryZoneLow: int, stopAnchor: int)

  function IntentOf(g: Gap): Intent {
    Intent(g.Side(), g.top, g.bottom, g.stopLoss)
  }

  datatype Plan = Plan(
    side: Side, intendedEntryPrice: int, orderPrice: Option<int>, riskAmount: nat,
    plannedStopLoss: int, plannedTakeProfit: int)

  function BuildPlan(i: Intent, intended: int, rr: real, orderPrice: Option<int>): Plan {
    var risk := Abs(intended - i.stopAnchor);
    Plan(i.side, intended, orderPrice, risk, i.stopAnchor, TargetOf(i.side, intended, risk, rr))
  }

  /** Entry in the middle of the zone. */
  function LegacyMidPricePlan(i: Intent, rr: real): Plan {
    BuildPlan(i, TruncDiv(i.entryZoneHigh + i.entryZoneLow, 2), rr, None)
  }

  /** A resting order at the near edge of the zone. */
  function LivePassivePlan(i: Intent, rr: real): Plan {
    var intended := if i.side == Long then i.entryZoneHigh else i.entryZoneLow;
    BuildPlan(i, intended, rr, Some(intended))
  }

  /** A marketable order measured against the same edge; its price is set later. */
  function LiveMarketablePlan(i: Intent, rr: real): Plan {
    var intended := if i.side == Long then i.entryZoneHigh else i.entryZoneLow;
    BuildPlan(i, intended, rr, None)
  }

  /** A plan on a gap: for its side, with its stop, and a target the ratio times the risk, cut to a whole price, away from it. */
  predicate IsPlanOn(g: Gap, rr: real, p: Plan) {
    && p.side == (if g.direction == Bullish then Long else Short)
    && p.plannedStopLoss == g.stopLoss
    && p.riskAmount == Abs(p.intendedEntryPrice - g.stopLoss)
    && p.plannedTakeProfit
       == if g.direction == Bullish then p.intendedEntryPrice + Truncate(p.riskAmount as real * rr)
          else p.intendedEntryPrice - Truncate(p.riskAmount as real * rr)
  }

  lemma PlansAreOnGap(g: Gap, rr: real, intended: int, order: Option<int>)
    ensures IsPlanOn(g, rr, BuildPlan(IntentOf(g), intended, rr, order))
  {
    hide Truncate, Abs;
  }

  /**
   The three plans on a gap: entered in its middle (rounded toward zero), or at the edge away
   from the stop, where the passive order rests.
   */
  lemma PlansOnGap(g: Gap, rr: real)
    ensures var (legacy, passive, marketable) :=
              (LegacyMidPricePlan(IntentOf(g), rr), LivePassivePlan(IntentOf(g), rr), LiveMarketablePlan(IntentOf(g), rr));
            && IsPlanOn(g, rr, legacy) && IsPlanOn(g, rr, passive) && IsPlanOn(g, rr, marketable)
            && (g.top + g.bottom >= 0 ==> 0 <= g.top + g.bottom - 2 * legacy.intendedEntryPrice <= 1)
            && (g.top + g.bottom <= 0 ==> -1 <= g.top + g.bottom - 2 * legacy.intendedEntryPrice <= 0)
            && passive.intendedEntryPrice == marketable.intendedEntryPrice
               == (if g.direction == Bullish then g.top else g.bottom)
            && legacy.orderPrice == None && marketable.orderPrice == None
            && passive.orderPrice == Some(passive.intendedEntryPrice)
  {
    hide Truncate, Abs, IsPlanOn, TargetOf;
    var edge := if g.direction == Bullish then g.top else g.bottom;
    PlansAreOnGap(g, rr, TruncDiv(g.top + g.bottom, 2), None);
    PlansAreOnGap(g, rr, edge, Some(edge));
    PlansAreOnGap(g, rr, edge, None);
  }

  predicate PlanIsBracket(p: Plan) {
    Bracket(p.side, p.plannedStopLoss, p.intendedEntryPrice, p.plannedTakeProfit)
  }

  /** Every plan on a gap of sound candles is a bracket; a live entry is strictly beyond its stop. */
  lemma PlansAreBrackets(cs: seq<Candle>, g: Gap, rr: real)
    requires Sound(cs) && IsGapAt(cs, g) && rr >= 0.0
    ensures PlanIsBracket(LegacyMidPricePlan(IntentOf(g), rr))
    ensures g.ContainsPrice(LegacyMidPricePlan(IntentOf(g), rr).intendedEntryPrice)
    ensures PlanIsBracket(LivePassivePlan(IntentOf(g), rr))
    ensures PlanIsBracket(LiveMarketablePlan(IntentOf(g), rr))
    ensures LiveMarketablePlan(IntentOf(g), rr).riskAmount == LivePassivePlan(IntentOf(g), rr).riskAmount > 0
    ensures LivePassivePlan(IntentOf(g), rr).riskAmount
         >= LegacyMidPricePlan(IntentOf(g), rr).riskAmount
  {
    hide TargetOf, Sound, IsGapAt;
    GapsAreWellFormed(cs, g);
    MidPriceInside(g);
    PlanTarget(g.Side(), g.MidPrice(), Abs(g.MidPrice() - g.stopLoss), rr);
    var edge := if g.Side() == Long then g.top else g.bottom;
    PlanTarget(g.Side(), edge, Abs(edge - g.stopLoss), rr);
    hide Gap.MidPrice, TruncDiv;
  }

  lemma MidPriceInside(g: Gap)
    requires g.bottom <= g.top
    ensures g.MidPrice() == TruncDiv(g.top + g.bottom, 2) && g.bottom <= g.MidPrice() <= g.top
  {
  }

  lemma PlanTarget(side: Side, entry: int, risk: nat, rr: real)
    requires rr >= 0.0
    ensures side == Long ==> entry <= TargetOf(side, entry, risk, rr)
    ensures side == Short ==> TargetOf(side, entry, risk, rr) <= entry
  {
    ProductSign(risk as real, rr);
  }

  /** The trade that enters as planned and leaves at the given price. */
  function TradeOfPlan(p: Plan, exitPrice: int): Trade {
    Trade(p.side, p.intendedEntryPrice, exitPrice, p.plannedStopLoss, p.plannedTakeProfit, 0, 0, EndOfDay,
          0, p.intendedEntryPrice, 0)
  }

  /** Leaving at the planned target realises R in (rr - 1/risk, rr]; leaving at the stop, exactly -1. */
  lemma PlannedR(cs: seq<Candle>, g: Gap, rr: real, p: Plan)
    requires Sound(cs) && IsGapAt(cs, g) && rr >= 0.0
    requires p in {LegacyMidPricePlan(IntentOf(g), rr), LivePassivePlan(IntentOf(g), rr), LiveMarketablePlan(IntentOf(g), rr)}
    requires p.riskAmount > 0
    ensures var r := TradeOfPlan(p, p.plannedTakeProfit).RealizedRr();
            rr - 1.0 / p.riskAmount as real < r <= rr
    ensures TradeOfPlan(p, p.plannedStopLoss).RealizedRr() == -1.0
  {
    PlansAreBrackets(cs, g, rr);
    RealizedAtTargetAndStop(TradeOfPlan(p, p.plannedTakeProfit), rr);
    RealizedAtTargetAndStop(TradeOfPlan(p, p.plannedStopLoss), rr);
  }

  /** A legacy plan may carry no risk at all: a one-price candle below a one-unit gap. */
  lemma LegacyPlanWithoutRisk()
    ensures var cs := [Candle(0, 32400, 10, 10, 10, 10, 1), Candle(0, 32700, 10, 12, 10, 12, 1),
                       Candle(0, 33000, 12, 12, 11, 12, 1)];
            && Sound(cs)
            && IsGapAt(cs, Gap(Bullish, 11, 10, 1, 10))
            && LegacyMidPricePlan(IntentOf(Gap(Bullish, 11, 10, 1, 10)), 2.5).riskAmount == 0
  {
  }
}

/** Sides, exit reasons and finished trades. */
module Trades {
  import opened Arithmetic
  import opened Candles

  datatype Side = Long | Short

  datatype ExitReason = StopLoss | TakeProfit | BreakevenStop | TrailingStop | TimeStop | EndOfDay

  datatype Trade = Trade(
    side: Side, entryPrice: int, exitPrice: int, stopLoss: int, takeProfit: int,
    entryTime: Time, exitTime: Time, exitReason: ExitReason,
    quantity: nat, intendedEntryPrice: int, orderToFillMs: int)
  {
    function Gain(): int {
      match side
      case Long => exitPrice - entryPrice
      case Short => entryPrice - exitPrice
    }

    /** Percent profit.  At entry price 0 the original divides by zero; 0 stands in for that. */
    function PnlPct(): real {
      if entryPrice == 0 then 0.0 else Gain() as real / entryPrice as real * 100.0
    }

    /** Profit in units of the initial risk. */
    function RealizedRr(): real {
      var risk := Abs(entryPrice - stopLoss);
      if risk == 0 then 0.0 else Gain() as real / risk as real
    }
  }

  /** Entry plus (long) or minus (short) the risk times the ratio, cut to a whole price. */
  function TargetOf(side: Side, entry: int, risk: nat, rr: real): int {
    match side
    case Long => entry + Truncate(risk as real * rr)
    case Short => entry - Truncate(risk as real * rr)
  }

  /** Stop, entry and target lie in this order, seen from the side of the trade. */
  predicate Bracket(side: Side, stop: int, entry: int, target: int) {
    match side
    case Long => stop <= entry <= target
    case Short => target <= entry <= stop
  }

  lemma TruncatedRatio(risk: real, rr: real)
    requires risk > 0.0 && rr >= 0.0
    ensures rr - 1.0 / risk < Truncate(risk * rr) as real / risk <= rr
  {
    hide Truncate;
    var g := Truncate(risk * rr) as real;
    ProductSign(risk, rr);
    QuotientTimesDivisor(g, risk);
    QuotientTimesDivisor(1.0, risk);
    ProductOfDifference(rr, 1.0 / risk, risk);
    CancelFactor(rr - 1.0 / risk, g / risk, risk);
    CancelFactor(g / risk, rr, risk);
  }

  lemma LostRiskRatio(risk: real)
    requires risk > 0.0
    ensures (-risk) / risk == -1.0
  {
    QuotientTimesDivisor(-risk, risk);
    CancelFactor(-risk / risk, -1.0, risk);
    CancelFactor(-1.0, -risk / risk, risk);
  }

  /**
   A trade that leaves at its target realises the ratio up to one price unit of the risk;
   one that leaves at its stop loses exactly one risk.
   */
  lemma RealizedAtTargetAndStop(t: Trade, rr: real)
    requires rr >= 0.0 && t.entryPrice != t.stopLoss
    requires t.stopLoss < t.entryPrice <==> t.side == Long
    requires t.takeProfit == TargetOf(t.side, t.entryPrice, Abs(t.entryPrice - t.stopLoss), rr)
    ensures var risk := Abs(t.entryPrice - t.stopLoss) as real;
            && (t.exitPrice == t.takeProfit ==> rr - 1.0 / risk < t.RealizedRr() <= rr)
            && (t.exitPrice == t.stopLoss ==> t.RealizedRr() == -1.0)
  {
    hide Truncate;
    var risk := Abs(t.entryPrice - t.stopLoss);
    TruncatedRatio(risk as real, rr);
    LostRiskRatio(risk as real);
    if t.exitPrice == t.takeProfit {
      assert t.Gain() == Truncate(risk as real * rr);
    }
    if t.exitPrice == t.stopLoss {
      assert t.Gain() as real == -(risk as real);
    }
  }

  // ---------------------------------------------------------------------------
  // What the two profits mean
  // ---------------------------------------------------------------------------

  /** Percent profit is the favourable move of the price, as a share of the entry price. */
  lemma PnlIsShareOfEntry(t: Trade)
    ensures t.entryPrice == 0 ==> t.PnlPct() == 0.0
    ensures t.entryPrice != 0 && t.side == Long ==>
              t.PnlPct() * t.entryPrice as real == 100.0 * (t.exitPrice - t.entryPrice) as real
    ensures t.entryPrice != 0 && t.side == Short ==>
              t.PnlPct() * t.entryPrice as real == 100.0 * (t.entryPrice - t.exitPrice) as real
  {
    if t.entryPrice != 0 {
      var gain, entry := t.Gain() as real, t.entryPrice as real;
      var q := gain / entry;
      assert t.PnlPct() == q * 100.0;
      hide Trade.PnlPct;
      assert q * entry == gain;
      assert (q * 100.0) * entry == 100.0 * (q * entry);
    }
  }

  /** At a positive entry price a trade wins exactly when it leaves strictly beyond the entry. */
  lemma WinsExactly(t: Trade)
    requires t.entryPrice > 0
    ensures t.side == Long ==> (t.PnlPct() > 0.0 <==> t.exitPrice > t.entryPrice)
    ensures t.side == Short ==> (t.PnlPct() > 0.0 <==> t.exitPrice < t.entryPrice)
  {
    hide Trade.PnlPct;
    PnlIsShareOfEntry(t);
    ProductSign(t.PnlPct(), t.entryPrice as real);
    ProductSign(-t.PnlPct(), t.entryPrice as real);
  }

  /** At a positive entry price a trade loses a given percentage or more exactly when the price moved against it by that share. */
  lemma LosesExactly(t: Trade, limit: real)
    requires t.entryPrice > 0
    ensures t.side == Long ==>
              (t.PnlPct() <= limit <==> 100.0 * (t.exitPrice - t.entryPrice) as real <= limit * t.entryPrice as real)
    ensures t.side == Short ==>
              (t.PnlPct() <= limit <==> 100.0 * (t.entryPrice - t.exitPrice) as real <= limit * t.entryPrice as real)
  {
    hide Trade.PnlPct;
    var entry := t.entryPrice as real;
    PnlIsShareOfEntry(t);
    CancelFactor(t.PnlPct(), limit, entry);
    CancelFactor(limit, t.PnlPct(), entry);
  }

  /** The realised R, times the initial risk, is the favourable move; without risk it is 0. */
  lemma RealizedRrIsShareOfRisk(t: Trade)
    ensures t.entryPrice == t.stopLoss ==> t.RealizedRr() == 0.0
    ensures t.entryPrice != t.stopLoss ==>
              t.RealizedRr() * Abs(t.entryPrice - t.stopLoss) as real
              == (if t.side == Long then t.exitPrice - t.entryPrice else t.entryPrice - t.exitPrice) as real
  {
    if t.entryPrice != t.stopLoss {
      var risk, gain := Abs(t.entryPrice - t.stopLoss), t.Gain();
      assert risk > 0 && t.RealizedRr() == gain as real / risk as real;
      hide Abs, Trade.RealizedRr;
      QuotientTimesDivisor(gain as real, risk as real);
      assert t.RealizedRr() * risk as real == gain as real;
    }
  }
}

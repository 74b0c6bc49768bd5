/** The simulated life of a position: gap stop, target, trailing, stop, time stop, day end. */
module ExitSimulation {
  import opened Arithmetic
  import opened Wrappers
  import opened Candles
  import opened Trades

  datatype ExitRules = ExitRules(trailingR: real, breakevenR: real, timeStopCandles: nat, forceExit: Time)

  datatype Entry = Entry(side: Side, price: int, stopLoss: int, takeProfit: int, time: Time)
  {
    function Risk(): nat { Abs(price - stopLoss) }

    predicate IsBracket() {
      Bracket(side, stopLoss, price, takeProfit)
    }
  }

  /** What changes while the position is open. */
  datatype Tracker = Tracker(stop: int, best: int, reached1r: bool)

  function Opening(e: Entry): Tracker {
    Tracker(e.stopLoss, e.price, false)
  }

  /** `x` is at least as good for the side as `y`. */
  predicate AtLeastAsGood(side: Side, x: int, y: int) {
    match side
    case Long => x >= y
    case Short => x <= y
  }

  function Favorable(side: Side, c: Candle): int {
    match side case Long => c.high case Short => c.low
  }

  function Adverse(side: Side, c: Candle): int {
    match side case Long => c.low case Short => c.high
  }

  /** A ratio of the risk, cut to a whole price. */
  function ShareOf(risk: nat, ratio: real): int {
    Truncate(risk as real * ratio)
  }

  /** The share is the last whole price within the ratio of the risk. */
  lemma ShareIsLastWholePrice(risk: nat, ratio: real)
    requires ratio >= 0.0
    ensures ShareOf(risk, ratio) >= 0
    ensures ShareOf(risk, ratio) as real <= risk as real * ratio < ShareOf(risk, ratio) as real + 1.0
  {
    ProductSign(risk as real, ratio);
  }

  /** The best price, the break-even move and the trailing stop after a favorable price. */
  function Updated(e: Entry, t: Tracker, favorable: int, rules: ExitRules): Tracker {
    var best := if AtLeastAsGood(e.side, favorable, t.best) then favorable else t.best;
    var profit := match e.side case Long => best - e.price case Short => e.price - best;
    var reachedNow := !t.reached1r && profit >= ShareOf(e.Risk(), rules.breakevenR);
    var stop := if reachedNow then e.price else t.stop;
    var reached := t.reached1r || reachedNow;
    var distance := ShareOf(e.Risk(), rules.trailingR);
    var trailed := match e.side case Long => best - distance case Short => best + distance;
    Tracker(if reached && !AtLeastAsGood(e.side, stop, trailed) then trailed else stop, best, reached)
  }

  function StopReason(e: Entry, t: Tracker): ExitReason {
    if t.reached1r && !AtLeastAsGood(e.side, e.stopLoss, t.stop) then
      if t.stop == e.price then BreakevenStop else TrailingStop
    else StopLoss
  }

  datatype Fill = Fill(price: int, reason: ExitReason)

  /** The rules on candle number `i` after entry, in order of precedence. */
  function FillOn(e: Entry, t: Tracker, c: Candle, i: nat, rules: ExitRules): Option<Fill> {
    if AtLeastAsGood(e.side, t.stop, c.open) then Some(Fill(c.open, if t.reached1r then TrailingStop else StopLoss))
    else if AtLeastAsGood(e.side, Favorable(e.side, c), e.takeProfit) then Some(Fill(e.takeProfit, TakeProfit))
    else
      var u := Updated(e, t, Favorable(e.side, c), rules);
      if AtLeastAsGood(e.side, u.stop, Adverse(e.side, c)) then Some(Fill(u.stop, StopReason(e, u)))
      else if !u.reached1r && i + 1 >= rules.timeStopCandles then Some(Fill(c.close, TimeStop))
      else if c.time >= rules.forceExit then Some(Fill(c.close, EndOfDay))
      else None
  }

  function TradeAt(e: Entry, f: Fill, at: Time): Trade {
    Trade(e.side, e.price, f.price, e.stopLoss, e.takeProfit, e.time, at, f.reason, 0, e.price, 0)
  }

  /** The trade from candle `i` on; without any rule firing it ends on the last candle. */
  function ExitFrom(e: Entry, rules: ExitRules, rest: seq<Candle>, i: nat, t: Tracker): Option<Trade>
    requires i <= |rest|
    decreases |rest| - i
  {
    if i == |rest| then
      if rest == [] then None
      else Some(TradeAt(e, Fill(rest[i - 1].close, EndOfDay), rest[i - 1].time))
    else
      match FillOn(e, t, rest[i], i, rules)
      case Some(f) => Some(TradeAt(e, f, rest[i].time))
      case None => ExitFrom(e, rules, rest, i + 1, Updated(e, t, Favorable(e.side, rest[i]), rules))
  }

  function Exit(e: Entry, rules: ExitRules, rest: seq<Candle>): Option<Trade> {
    ExitFrom(e, rules, rest, 0, Opening(e))
  }

  method SimulateExit(e: Entry, rules: ExitRules, remaining: seq<Candle>) returns (r: Option<Trade>)
    ensures r == Exit(e, rules, remaining)
  {
    hide StopReason, Updated, Abs;
    var t := Opening(e);
    for i := 0 to |remaining|
      invariant ExitFrom(e, rules, remaining, i, t) == Exit(e, rules, remaining)
    {
      var c := remaining[i];
      if AtLeastAsGood(e.side, t.stop, c.open) {
        return Some(TradeAt(e, Fill(c.open, if t.reached1r then TrailingStop else StopLoss), c.time));
      }
      if AtLeastAsGood(e.side, Favorable(e.side, c), e.takeProfit) {
        return Some(TradeAt(e, Fill(e.takeProfit, TakeProfit), c.time));
      }
      t := Updated(e, t, Favorable(e.side, c), rules);
      if AtLeastAsGood(e.side, t.stop, Adverse(e.side, c)) {
        return Some(TradeAt(e, Fill(t.stop, StopReason(e, t)), c.time));
      }
      if !t.reached1r && i + 1 >= rules.timeStopCandles {
        return Some(TradeAt(e, Fill(c.close, TimeStop), c.time));
      }
      if c.time >= rules.forceExit {
        return Some(TradeAt(e, Fill(c.close, EndOfDay), c.time));
      }
    }
    if remaining == [] {
      r := None;
    } else {
      var last := remaining[|remaining| - 1];
      r := Some(TradeAt(e, Fill(last.close, EndOfDay), last.time));
    }
  }

  // ---------------------------------------------------------------------------
  // When the position is closed
  // ---------------------------------------------------------------------------

  /** The candle on which the position is closed; the last one when no rule fires. */
  function ExitIndexFrom(e: Entry, rules: ExitRules, rest: seq<Candle>, i: nat, t: Tracker): (k: nat)
    requires i <= |rest| && rest != []
    ensures k < |rest| && (i < |rest| ==> i <= k)
    decreases |rest| - i
  {
    if i == |rest| then i - 1
    else if FillOn(e, t, rest[i], i, rules).Some? then i
    else ExitIndexFrom(e, rules, rest, i + 1, Updated(e, t, Favorable(e.side, rest[i]), rules))
  }

  function ExitIndex(e: Entry, rules: ExitRules, rest: seq<Candle>): (k: nat)
    requires rest != []
    ensures k < |rest|
  {
    ExitIndexFrom(e, rules, rest, 0, Opening(e))
  }

  lemma {:induction false} ExitTimeFrom(e: Entry, rules: ExitRules, rest: seq<Candle>, i: nat, t: Tracker)
    requires i <= |rest| && rest != []
    ensures var (r, k) := (ExitFrom(e, rules, rest, i, t), ExitIndexFrom(e, rules, rest, i, t));
            && r.Some?
            && r.value.exitTime == rest[k].time && r.value.entryTime == e.time
            && r.value.side == e.side && r.value.entryPrice == e.price
            && r.value.stopLoss == e.stopLoss && r.value.takeProfit == e.takeProfit
            && (forall j :: i <= j < k ==> rest[j].time < rules.forceExit)
    decreases |rest| - i
  {
    hide Updated, StopReason;
    if i < |rest| && FillOn(e, t, rest[i], i, rules).None? {
      ExitTimeFrom(e, rules, rest, i + 1, Updated(e, t, Favorable(e.side, rest[i]), rules));
    }
  }

  /**
   There is a trade unless no candle remains; it is closed at the time of one of the remaining
   candles, at the latest the first one at or after the forced exit.
   */
  lemma ExitContract(e: Entry, rules: ExitRules, rest: seq<Candle>)
    ensures Exit(e, rules, rest) == None <==> rest == []
    ensures rest != [] ==>
              var (r, k) := (Exit(e, rules, rest).value, ExitIndex(e, rules, rest));
              && r.exitTime == rest[k].time && r.entryTime == e.time
              && r.side == e.side && r.entryPrice == e.price
              && r.stopLoss == e.stopLoss && r.takeProfit == e.takeProfit
              && (forall j :: 0 <= j < k ==> rest[j].time < rules.forceExit)
  {
    if rest != [] {
      ExitTimeFrom(e, rules, rest, 0, Opening(e));
    }
  }

  lemma {:induction false} ExitFromIsOnline(e: Entry, rules: ExitRules, rest: seq<Candle>, other: seq<Candle>, i: nat, t: Tracker)
    requires i <= |rest| && rest != []
    requires var k := ExitIndexFrom(e, rules, rest, i, t); k < |rest| - 1 && k < |other| && other[..k + 1] == rest[..k + 1]
    ensures i < |other| && ExitFrom(e, rules, other, i, t) == ExitFrom(e, rules, rest, i, t)
    decreases |rest| - i
  {
    hide Updated, FillOn;
    var k := ExitIndexFrom(e, rules, rest, i, t);
    assert rest[i] == rest[..k + 1][i] == other[i];
    if FillOn(e, t, rest[i], i, rules).None? {
      ExitFromIsOnline(e, rules, rest, other, i + 1, Updated(e, t, Favorable(e.side, rest[i]), rules));
    }
  }

  /** No look-ahead: a trade closed before the last candle does not depend on later candles. */
  lemma ExitIsOnline(e: Entry, rules: ExitRules, rest: seq<Candle>, other: seq<Candle>)
    requires rest != []
    requires var k := ExitIndex(e, rules, rest); k < |rest| - 1 && k < |other| && other[..k + 1] == rest[..k + 1]
    ensures Exit(e, rules, other) == Exit(e, rules, rest)
  {
    ExitFromIsOnline(e, rules, rest, other, 0, Opening(e));
  }

  // ---------------------------------------------------------------------------
  // The price at which it is closed
  // ---------------------------------------------------------------------------

  /** The stop never gets worse, is untouched before 1R, and protects the entry afterwards. */
  predicate Protected(e: Entry, t: Tracker) {
    && AtLeastAsGood(e.side, t.stop, e.stopLoss)
    && AtLeastAsGood(e.side, t.best, e.price)
    && (!t.reached1r ==> t.stop == e.stopLoss)
    && (t.reached1r ==> AtLeastAsGood(e.side, t.stop, e.price))
  }

  /** The ratchet: an update never loosens the stop nor forgets the best price or 1R. */
  lemma UpdateRatchets(e: Entry, t: Tracker, favorable: int, rules: ExitRules)
    requires e.IsBracket() && Protected(e, t)
    ensures var u := Updated(e, t, favorable, rules);
            && Protected(e, u)
            && AtLeastAsGood(e.side, u.stop, t.stop)
            && AtLeastAsGood(e.side, u.best, t.best)
            && (t.reached1r ==> u.reached1r)
  {
    hide ShareOf;
  }

  /** The tracker with which the exit candle was reached. */
  function TrackerFrom(e: Entry, rules: ExitRules, rest: seq<Candle>, i: nat, t: Tracker): Tracker
    requires i <= |rest|
    decreases |rest| - i
  {
    if i == |rest| || FillOn(e, t, rest[i], i, rules).Some? then t
    else TrackerFrom(e, rules, rest, i + 1, Updated(e, t, Favorable(e.side, rest[i]), rules))
  }

  function TrackerAtExit(e: Entry, rules: ExitRules, rest: seq<Candle>): Tracker {
    TrackerFrom(e, rules, rest, 0, Opening(e))
  }

  /** What each reason says about the price, on the exit candle `c` reached with tracker `t`. */
  predicate PriceFitsReason(e: Entry, t: Tracker, r: Trade, c: Candle) {
    match r.exitReason
    case TakeProfit => r.exitPrice == e.takeProfit && AtLeastAsGood(e.side, Favorable(e.side, c), e.takeProfit)
    case StopLoss => StopBreached(e, e.stopLoss, r.exitPrice, c)
    case BreakevenStop => r.exitPrice == e.price && AtLeastAsGood(e.side, e.price, Adverse(e.side, c))
    case TrailingStop => OpenedBeyond(e, t, r.exitPrice, c) || StoppedInProfit(e, t, r.exitPrice, c)
    case TimeStop | EndOfDay => r.exitPrice == c.close
  }

  /** Left at the stop that the candle touched, or at an open that lay beyond it. */
  predicate StopBreached(e: Entry, stop: int, price: int, c: Candle) {
    || (price == stop && AtLeastAsGood(e.side, stop, Adverse(e.side, c)))
    || (price == c.open && AtLeastAsGood(e.side, stop, c.open))
  }

  /** The candle opened at or beyond a stop that already protected the entry. */
  predicate OpenedBeyond(e: Entry, t: Tracker, price: int, c: Candle) {
    t.reached1r && price == c.open && AtLeastAsGood(e.side, t.stop, c.open)
  }

  /** The candle touched a stop strictly in profit and no worse than the stop it was reached with. */
  predicate StoppedInProfit(e: Entry, t: Tracker, price: int, c: Candle) {
    && price != e.price && AtLeastAsGood(e.side, price, e.price)
    && AtLeastAsGood(e.side, price, t.stop)
    && AtLeastAsGood(e.side, price, Adverse(e.side, c))
  }

  lemma FillFitsReason(e: Entry, t: Tracker, c: Candle, i: nat, rules: ExitRules)
    requires e.IsBracket() && Protected(e, t)
    requires FillOn(e, t, c, i, rules).Some?
    ensures PriceFitsReason(e, t, TradeAt(e, FillOn(e, t, c, i, rules).value, c.time), c)
  {
    UpdateRatchets(e, t, Favorable(e.side, c), rules);
    hide Updated;
  }

  lemma {:induction false} ExitPriceFrom(e: Entry, rules: ExitRules, rest: seq<Candle>, i: nat, t: Tracker)
    requires e.IsBracket() && Protected(e, t) && i <= |rest| && rest != []
    ensures ExitFrom(e, rules, rest, i, t).Some?
    ensures Protected(e, TrackerFrom(e, rules, rest, i, t))
    ensures PriceFitsReason(e, TrackerFrom(e, rules, rest, i, t), ExitFrom(e, rules, rest, i, t).value,
                            rest[ExitIndexFrom(e, rules, rest, i, t)])
    decreases |rest| - i
  {
    hide Updated, FillOn, Protected, Entry.IsBracket, StopBreached, OpenedBeyond, StoppedInProfit;
    if i < |rest| {
      if FillOn(e, t, rest[i], i, rules).Some? {
        FillFitsReason(e, t, rest[i], i, rules);
      } else {
        UpdateRatchets(e, t, Favorable(e.side, rest[i]), rules);
        ExitPriceFrom(e, rules, rest, i + 1, Updated(e, t, Favorable(e.side, rest[i]), rules));
      }
    }
  }

  /**
   The reported reason and the exit price always fit: a target exit at the target, a stop loss
   at the planned stop (or a worse open), a break-even exit at the entry, a trailing exit
   strictly in profit and no worse than the current stop, unless the candle opened beyond that
   stop.  The current stop is never worse than the planned one.
   */
  lemma ReasonTellsPrice(e: Entry, rules: ExitRules, rest: seq<Candle>)
    requires e.IsBracket() && rest != []
    ensures Exit(e, rules, rest).Some? && Protected(e, TrackerAtExit(e, rules, rest))
    ensures PriceFitsReason(e, TrackerAtExit(e, rules, rest), Exit(e, rules, rest).value, rest[ExitIndex(e, rules, rest)])
  {
    ExitPriceFrom(e, rules, rest, 0, Opening(e));
  }

  // ---------------------------------------------------------------------------
  // The exit without a running tracker
  // ---------------------------------------------------------------------------

  /** The highest price a long position has seen once `n` candles have passed, its entry included. */
  function Peak(e: Entry, rest: seq<Candle>, n: nat): int
    requires n <= |rest|
  {
    if n == 0 then e.price else Max(Peak(e, rest, n - 1), rest[n - 1].high)
  }

  lemma {:induction false} PeakIsHighest(e: Entry, rest: seq<Candle>, n: nat)
    requires n <= |rest|
    ensures Peak(e, rest, n) >= e.price && forall k :: 0 <= k < n ==> rest[k].high <= Peak(e, rest, n)
    ensures Peak(e, rest, n) == e.price || exists k :: 0 <= k < n && rest[k].high == Peak(e, rest, n)
  {
    if n > 0 {
      PeakIsHighest(e, rest, n - 1);
      assert Peak(e, rest, n) == rest[n - 1].high || Peak(e, rest, n) == Peak(e, rest, n - 1);
    }
  }

  /** 1R is reached once the peak lies the break-even share of the risk above the entry. */
  predicate Reached(e: Entry, rules: ExitRules, rest: seq<Candle>, n: nat)
    requires n <= |rest|
  {
    n >= 1 && Peak(e, rest, n) - e.price >= ShareOf(Abs(e.price - e.stopLoss), rules.breakevenR)
  }

  /** The stop of a long position: the planned one, and from 1R on the entry or the trailing share of the risk below the peak. */
  function StopLevel(e: Entry, rules: ExitRules, rest: seq<Candle>, n: nat): int
    requires n <= |rest|
  {
    if Reached(e, rules, rest, n)
    then Max(e.price, Peak(e, rest, n) - ShareOf(Abs(e.price - e.stopLoss), rules.trailingR))
    else e.stopLoss
  }

  /** No rule closes a long position on candle `k`. */
  predicate Survives(e: Entry, rules: ExitRules, rest: seq<Candle>, k: nat)
    requires k < |rest|
  {
    && StopLevel(e, rules, rest, k) < rest[k].open
    && rest[k].high < e.takeProfit
    && StopLevel(e, rules, rest, k + 1) < rest[k].low
    && (Reached(e, rules, rest, k + 1) || k + 1 < rules.timeStopCandles)
    && rest[k].time < rules.forceExit
  }

  /** Where and why a long position leaves on candle `k`. */
  predicate LeavesAt(e: Entry, rules: ExitRules, rest: seq<Candle>, k: nat, price: int, reason: ExitReason)
    requires k < |rest|
  {
    var c, before, after := rest[k], StopLevel(e, rules, rest, k), StopLevel(e, rules, rest, k + 1);
    if c.open <= before then
      price == c.open && reason == if Reached(e, rules, rest, k) then TrailingStop else StopLoss
    else if c.high >= e.takeProfit then
      price == e.takeProfit && reason == TakeProfit
    else if c.low <= after then
      price == after
      && reason == if !Reached(e, rules, rest, k + 1) || after <= e.stopLoss then StopLoss
                   else if after == e.price then BreakevenStop else TrailingStop
    else
      price == c.close
      && reason == if !Reached(e, rules, rest, k + 1) && k + 1 >= rules.timeStopCandles then TimeStop else EndOfDay
  }

  /** The whole life of a long position: it survives every candle before `k`, and `k` closes it or is the last. */
  ghost predicate IsLongExit(e: Entry, rules: ExitRules, rest: seq<Candle>, k: nat, r: Trade) {
    && k < |rest|
    && (forall j :: 0 <= j < k ==> Survives(e, rules, rest, j))
    && (!Survives(e, rules, rest, k) || k == |rest| - 1)
    && LeavesAt(e, rules, rest, k, r.exitPrice, r.exitReason)
    && r == Trade(Long, e.price, r.exitPrice, e.stopLoss, e.takeProfit, e.time, rest[k].time, r.exitReason, 0, e.price, 0)
  }

  function LongTracker(e: Entry, rules: ExitRules, rest: seq<Candle>, n: nat): Tracker
    requires n <= |rest|
  {
    Tracker(StopLevel(e, rules, rest, n), Peak(e, rest, n), Reached(e, rules, rest, n))
  }

  lemma LongTrackerStep(e: Entry, rules: ExitRules, rest: seq<Candle>, n: nat)
    requires e.side == Long && n < |rest|
    ensures Updated(e, LongTracker(e, rules, rest, n), rest[n].high, rules) == LongTracker(e, rules, rest, n + 1)
  {
    hide ShareOf, Abs;
  }

  lemma LongTurn(e: Entry, rules: ExitRules, rest: seq<Candle>, k: nat)
    requires e.side == Long && k < |rest|
    ensures var f := FillOn(e, LongTracker(e, rules, rest, k), rest[k], k, rules);
            && (f.None? <==> Survives(e, rules, rest, k))
            && (f.Some? ==> LeavesAt(e, rules, rest, k, f.value.price, f.value.reason))
            && (f.None? ==> LeavesAt(e, rules, rest, k, rest[k].close, EndOfDay))
  {
    LongTrackerStep(e, rules, rest, k);
    hide Updated, StopLevel, Reached, Peak;
  }

  lemma {:induction false} LongExitFrom(e: Entry, rules: ExitRules, rest: seq<Candle>, i: nat) returns (k: nat)
    requires e.side == Long && i <= |rest| && rest != []
    requires forall j :: 0 <= j < i ==> Survives(e, rules, rest, j)
    ensures var r := ExitFrom(e, rules, rest, i, LongTracker(e, rules, rest, i));
            r.Some? && IsLongExit(e, rules, rest, k, r.value)
    decreases |rest| - i
  {
    hide FillOn, Updated, Survives, LeavesAt, LongTracker;
    if i == |rest| {
      k := i - 1;
      LongTurn(e, rules, rest, k);
      assert Survives(e, rules, rest, k) && LeavesAt(e, rules, rest, k, rest[k].close, EndOfDay);
    } else {
      LongTurn(e, rules, rest, i);
      if FillOn(e, LongTracker(e, rules, rest, i), rest[i], i, rules).Some? {
        k := i;
      } else {
        LongTrackerStep(e, rules, rest, i);
        k := LongExitFrom(e, rules, rest, i + 1);
      }
    }
  }

  /** A long position leaves exactly as the peak of its prices tells. */
  lemma LongExitExact(e: Entry, rules: ExitRules, rest: seq<Candle>) returns (k: nat)
    requires e.side == Long && rest != []
    ensures Exit(e, rules, rest).Some? && IsLongExit(e, rules, rest, k, Exit(e, rules, rest).value)
  {
    hide Survives, LeavesAt, ExitFrom;
    assert LongTracker(e, rules, rest, 0) == Opening(e);
    k := LongExitFrom(e, rules, rest, 0);
  }

  lemma LongExitIsUnique(e: Entry, rules: ExitRules, rest: seq<Candle>, k: nat, r: Trade, k': nat, r': Trade)
    requires IsLongExit(e, rules, rest, k, r) && IsLongExit(e, rules, rest, k', r')
    ensures k == k' && r == r'
  {
    hide Survives, StopLevel, Reached;
  }

  /** A position closed by time is closed on its candle number `timeStopCandles`, the first one if that is 0, short of 1R. */
  lemma TimeStopIsOnTime(e: Entry, rules: ExitRules, rest: seq<Candle>, k: nat, r: Trade)
    requires IsLongExit(e, rules, rest, k, r) && r.exitReason == TimeStop
    ensures k + 1 == Max(rules.timeStopCandles, 1) && !Reached(e, rules, rest, k + 1)
  {
    hide StopLevel, ShareOf, Abs;
    if k > 0 {
      assert Survives(e, rules, rest, k - 1);
      assert Peak(e, rest, k) <= Peak(e, rest, k + 1);
    }
  }

  // ---------------------------------------------------------------------------
  // Short positions are long positions in the mirror
  // ---------------------------------------------------------------------------

  function MirrorSide(s: Side): Side {
    match s case Long => Short case Short => Long
  }

  function MirrorCandle(c: Candle): Candle {
    Candle(c.date, c.time, -c.open, -c.low, -c.high, -c.close, c.volume)
  }

  function MirrorCandles(cs: seq<Candle>): (ms: seq<Candle>)
    ensures |ms| == |cs| && forall i :: 0 <= i < |cs| ==> ms[i] == MirrorCandle(cs[i])
  {
    if cs == [] then [] else [MirrorCandle(cs[0])] + MirrorCandles(cs[1..])
  }

  function MirrorEntry(e: Entry): Entry {
    Entry(MirrorSide(e.side), -e.price, -e.stopLoss, -e.takeProfit, e.time)
  }

  function MirrorTrade(t: Trade): Trade {
    Trade(MirrorSide(t.side), -t.entryPrice, -t.exitPrice, -t.stopLoss, -t.takeProfit, t.entryTime, t.exitTime,
          t.exitReason, t.quantity, -t.intendedEntryPrice, t.orderToFillMs)
  }

  function MirrorTracker(t: Tracker): Tracker {
    Tracker(-t.stop, -t.best, t.reached1r)
  }

  lemma MirrorTurn(e: Entry, t: Tracker, c: Candle, i: nat, rules: ExitRules)
    ensures Updated(MirrorEntry(e), MirrorTracker(t), Favorable(MirrorSide(e.side), MirrorCandle(c)), rules)
         == MirrorTracker(Updated(e, t, Favorable(e.side, c), rules))
    ensures FillOn(MirrorEntry(e), MirrorTracker(t), MirrorCandle(c), i, rules)
         == match FillOn(e, t, c, i, rules)
            case None => None
            case Some(f) => Some(Fill(-f.price, f.reason))
  {
    hide ShareOf;
    MirrorUpdate(e, t, Favorable(e.side, c), rules);
    hide Updated;
  }

  lemma MirrorUpdate(e: Entry, t: Tracker, favorable: int, rules: ExitRules)
    ensures Updated(MirrorEntry(e), MirrorTracker(t), -favorable, rules) == MirrorTracker(Updated(e, t, favorable, rules))
  {
    hide ShareOf, Entry.Risk;
    assert MirrorEntry(e).Risk() == e.Risk() by { MirrorRisk(e); }
  }

  lemma MirrorRisk(e: Entry)
    ensures MirrorEntry(e).Risk() == e.Risk()
  {
  }

  lemma {:induction false} MirrorExitFrom(e: Entry, rules: ExitRules, rest: seq<Candle>, i: nat, t: Tracker)
    requires i <= |rest|
    ensures ExitFrom(MirrorEntry(e), rules, MirrorCandles(rest), i, MirrorTracker(t))
         == match ExitFrom(e, rules, rest, i, t)
            case None => None
            case Some(r) => Some(MirrorTrade(r))
    decreases |rest| - i
  {
    hide Updated, FillOn;
    if i < |rest| {
      MirrorTurn(e, t, rest[i], i, rules);
      MirrorExitFrom(e, rules, rest, i + 1, Updated(e, t, Favorable(e.side, rest[i]), rules));
    }
  }

  /** With every price negated and the side turned, the exit is the same with its prices negated. */
  lemma ExitIsSymmetric(e: Entry, rules: ExitRules, rest: seq<Candle>)
    ensures Exit(MirrorEntry(e), rules, MirrorCandles(rest))
         == match Exit(e, rules, rest)
            case None => None
            case Some(r) => Some(MirrorTrade(r))
  {
    hide ExitFrom;
    assert MirrorTracker(Opening(e)) == Opening(MirrorEntry(e));
    MirrorExitFrom(e, rules, rest, 0, Opening(e));
  }

  ghost predicate IsExit(e: Entry, rules: ExitRules, rest: seq<Candle>, r: Trade) {
    match e.side
    case Long => exists k :: IsLongExit(e, rules, rest, k, r)
    case Short => exists k :: IsLongExit(MirrorEntry(e), rules, MirrorCandles(rest), k, MirrorTrade(r))
  }

  /** The simulated exit is the described one, and no other trade fits the description. */
  lemma ExitExact(e: Entry, rules: ExitRules, rest: seq<Candle>, r: Trade)
    ensures Exit(e, rules, rest) == Some(r) <==> IsExit(e, rules, rest, r)
  {
    hide IsLongExit, Exit;
    var long, candles, trade := e, rest, r;
    if e.side == Short {
      ExitIsSymmetric(e, rules, rest);
      long, candles, trade := MirrorEntry(e), MirrorCandles(rest), MirrorTrade(r);
    }
    if rest == [] {
      NoExit(e, rules);
      NoLongExit(long, rules, candles, trade);
    } else {
      var k := LongExitExact(long, rules, candles);
      if j :| IsLongExit(long, rules, candles, j, trade) {
        LongExitIsUnique(long, rules, candles, j, trade, k, Exit(long, rules, candles).value);
      }
      if e.side == Short && Exit(e, rules, rest).Some? {
        MirrorIsInjective(Exit(e, rules, rest).value, r);
      }
    }
  }

  lemma NoExit(e: Entry, rules: ExitRules)
    ensures Exit(e, rules, []) == None
  {
  }

  lemma NoLongExit(e: Entry, rules: ExitRules, rest: seq<Candle>, r: Trade)
    requires rest == []
    ensures !exists k :: IsLongExit(e, rules, rest, k, r)
  {
  }

  lemma MirrorIsInjective(a: Trade, b: Trade)
    ensures MirrorTrade(a) == MirrorTrade(b) <==> a == b
  {
  }
}

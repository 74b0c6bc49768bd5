/** Stochastic, RSI and MACD on top of the rolling averages, over the reals. */
module Oscillators {
  import opened Arithmetic
  import opened Wrappers
  import opened MovingAverages

  // ---------------------------------------------------------------------------
  // Slow stochastic
  // ---------------------------------------------------------------------------

  datatype Hlc = Hlc(high: real, low: real, close: real)

  function Highs(hs: seq<Hlc>): (r: seq<real>)
    ensures |r| == |hs|
  {
    seq(|hs|, i requires 0 <= i < |hs| => hs[i].high)
  }

  function Lows(hs: seq<Hlc>): (r: seq<real>)
    ensures |r| == |hs|
  {
    seq(|hs|, i requires 0 <= i < |hs| => hs[i].low)
  }

  function Greatest(xs: seq<real>): (m: real)
    requires xs != []
    ensures m in xs && forall i :: 0 <= i < |xs| ==> xs[i] <= m
  {
    if |xs| == 1 then xs[0]
    else
      var m := Greatest(xs[..|xs| - 1]);
      if xs[|xs| - 1] > m then xs[|xs| - 1] else m
  }

  function Least(xs: seq<real>): (m: real)
    requires xs != []
    ensures m in xs && forall i :: 0 <= i < |xs| ==> m <= xs[i]
  {
    if |xs| == 1 then xs[0]
    else
      var m := Least(xs[..|xs| - 1]);
      if xs[|xs| - 1] < m then xs[|xs| - 1] else m
  }

  function FastK(highest: real, lowest: real, close: real): real {
    if highest - lowest > 0.0 then (close - lowest) / (highest - lowest) * 100.0 else 50.0
  }

  /** Fast %K of one full window, at its last close; an empty window has no range. */
  function FastKOf(window: seq<Hlc>): real {
    if window == [] then 50.0
    else FastK(Greatest(Highs(window)), Least(Lows(window)), window[|window| - 1].close)
  }

  /** Candles up to the first full window: with period 0 the window is full, and empty, from the first on. */
  function FirstWindow(k: nat): nat {
    if k == 0 then 1 else k
  }

  /** Fast %K of every window of `k` candles, in order. */
  function FastKs(hs: seq<Hlc>, k: nat): (ys: seq<real>)
    ensures |ys| == if |hs| < FirstWindow(k) then 0 else |hs| - FirstWindow(k) + 1
  {
    if |hs| < FirstWindow(k) then []
    else FastKs(hs[..|hs| - 1], k) + [FastKOf(hs[|hs| - k..])]
  }

  datatype StochasticValues = StochasticValues(k: real, d: real)

  /** Slow %K averages fast %K, %D averages slow %K; both need a full window. */
  function StochasticOf(hs: seq<Hlc>, k: nat, d: nat): Option<StochasticValues>
    requires d >= 1
  {
    var fast := FastKs(hs, k);
    var slow := SmaSeries(fast, d);
    if SmaOf(slow, d).None? then None
    else Some(StochasticValues(SmaOf(fast, d).value, SmaOf(slow, d).value))
  }

  class Stochastic {
    const kPeriod: nat
    const dPeriod: nat
    var highBuffer: seq<real>
    var lowBuffer: seq<real>
    const kSma: Sma
    const dSma: Sma
    ghost var fed: seq<Hlc>

    ghost predicate Valid()
      reads this, kSma, dSma
    {
      && dPeriod >= 1
      && kSma != dSma
      && kSma.Valid() && kSma.period == dPeriod
      && dSma.Valid() && dSma.period == dPeriod
      && highBuffer == LastN(Highs(fed), kPeriod)
      && lowBuffer == LastN(Lows(fed), kPeriod)
      && kSma.fed == FastKs(fed, kPeriod)
      && dSma.fed == SmaSeries(kSma.fed, dPeriod)
    }

    constructor (k: nat, d: nat)
      requires d >= 1
      ensures Valid() && fresh(kSma) && fresh(dSma)
      ensures kPeriod == k && dPeriod == d && fed == []
    {
      kPeriod, dPeriod := k, d;
      highBuffer, lowBuffer, fed := [], [], [];
      kSma := new Sma(d);
      dSma := new Sma(d);
    }

    method Next(high: real, low: real, close: real) returns (r: Option<StochasticValues>)
      requires Valid()
      modifies this, kSma, dSma
      ensures Valid() && fed == old(fed) + [Hlc(high, low, close)]
      ensures r == StochasticOf(fed, kPeriod, dPeriod)
    {
      hide Sma.Valid, FastK, FastKs, SmaSeries, SmaOf, Greatest, Least, Highs, Lows, LastN, StochasticOf;
      ghost var h := Hlc(high, low, close);
      CandlePushed(fed, h, kPeriod);
      fed := fed + [h];
      highBuffer := highBuffer + [high];
      lowBuffer := lowBuffer + [low];
      if |highBuffer| > kPeriod {
        highBuffer := highBuffer[1..];
        lowBuffer := lowBuffer[1..];
      }
      if |highBuffer| < kPeriod {
        NoOutput(fed, kPeriod, dPeriod);
        return None;
      }
      var fastK := if highBuffer == [] then 50.0 else FastK(Greatest(highBuffer), Least(lowBuffer), close);
      OutputOf(fed, kPeriod, dPeriod, kSma.fed, fastK);
      var slowK := kSma.Next(fastK);
      if slowK.None? {
        return None;
      }
      var slowD := dSma.Next(slowK.value);
      if slowD.None? {
        return None;
      }
      r := Some(StochasticValues(slowK.value, slowD.value));
    }
  }

  /** A candle that does not fill the window changes no average and gives no output. */
  lemma NoOutput(fed: seq<Hlc>, k: nat, d: nat)
    requires d >= 1 && FastKs(fed, k) == []
    ensures StochasticOf(fed, k, d) == None
  {
  }

  /** The output after a new fast %K, in terms of the two averages it is fed through. */
  lemma OutputOf(fed: seq<Hlc>, k: nat, d: nat, before: seq<real>, fastK: real)
    requires d >= 1 && FastKs(fed, k) == before + [fastK]
    ensures var slowK := SmaOf(before + [fastK], d);
            if slowK.None? then
              SmaSeries(before + [fastK], d) == SmaSeries(before, d) && StochasticOf(fed, k, d) == None
            else
              var slow := SmaSeries(before, d) + [slowK.value];
              && SmaSeries(before + [fastK], d) == slow
              && StochasticOf(fed, k, d)
                 == if SmaOf(slow, d).None? then None else Some(StochasticValues(slowK.value, SmaOf(slow, d).value))
  {
    hide Mean, Sum, FastKs;
    SmaSeriesStep(before, fastK, d);
  }

  /** What one more candle does to the two buffers and to the series of fast %K. */
  lemma CandlePushed(before: seq<Hlc>, h: Hlc, k: nat)
    ensures var fed := before + [h];
            var (hi, lo) := (LastN(Highs(before), k) + [h.high], LastN(Lows(before), k) + [h.low]);
            var (hi', lo') := if |hi| > k then (hi[1..], lo[1..]) else (hi, lo);
            && |hi| == |lo|
            && hi' == LastN(Highs(fed), k) && lo' == LastN(Lows(fed), k)
            && (|hi'| < k ==> FastKs(fed, k) == FastKs(before, k) == [])
            && (|hi'| >= k ==>
                  FastKs(fed, k)
                  == FastKs(before, k) + [if hi' == [] then 50.0 else FastK(Greatest(hi'), Least(lo'), h.close)])
  {
    hide FastK, FastKOf, FastKs, Greatest, Least, LastN;
    WindowStep(before, h, k);
    FullWindow(before + [h], k);
    FastKsStep(before, h, k);
  }

  /** When the buffers are full, and the fast %K they then give. */
  lemma FullWindow(fed: seq<Hlc>, k: nat)
    requires fed != []
    ensures var (hi, lo) := (LastN(Highs(fed), k), LastN(Lows(fed), k));
            && |hi| == |lo|
            && (|hi| < k <==> |fed| < FirstWindow(k))
            && (|hi| >= k ==>
                  FastKOf(fed[|fed| - k..])
                  == if hi == [] then 50.0 else FastK(Greatest(hi), Least(lo), fed[|fed| - 1].close))
  {
    hide FastK, FastKOf;
    if 1 <= k <= |fed| {
      LastFastK(fed, k);
    } else if k == 0 {
      NoRange(fed[|fed|..]);
    }
  }

  lemma NoRange(window: seq<Hlc>)
    ensures window == [] ==> FastKOf(window) == 50.0
  {
  }

  lemma LastFastK(fed: seq<Hlc>, k: nat)
    requires 1 <= k <= |fed|
    ensures var (hi, lo) := (LastN(Highs(fed), k), LastN(Lows(fed), k));
            FastKOf(fed[|fed| - k..]) == FastK(Greatest(hi), Least(lo), fed[|fed| - 1].close)
  {
    hide FastK, Greatest, Least;
    assert Highs(fed[|fed| - k..]) == LastN(Highs(fed), k);
    assert Lows(fed[|fed| - k..]) == LastN(Lows(fed), k);
  }

  lemma FastKsStep(before: seq<Hlc>, h: Hlc, k: nat)
    ensures var fed := before + [h];
            FastKs(fed, k) == FastKs(before, k) + if |fed| < FirstWindow(k) then [] else [FastKOf(fed[|fed| - k..])]
  {
    hide FastKOf;
    assert (before + [h])[..|before|] == before;
  }

  /** The i-th fast %K is that of the window ending at candle i + FirstWindow(k) - 1. */
  lemma {:induction false} FastKsAt(hs: seq<Hlc>, k: nat, i: nat)
    requires i + FirstWindow(k) <= |hs|
    ensures FastKs(hs, k)[i] == FastKOf(hs[i + FirstWindow(k) - k..i + FirstWindow(k)])
  {
    hide FastKOf;
    var n := i + FirstWindow(k);
    if n < |hs| {
      var front := hs[..|hs| - 1];
      FastKsAt(front, k, i);
      assert front[n - k..n] == hs[n - k..n];
    } else {
      assert hs[n - k..] == hs[n - k..n];
    }
  }

  /** The buffers hold the last `k` highs and lows. */
  lemma WindowStep(before: seq<Hlc>, h: Hlc, k: nat)
    ensures var (hi, lo) := (LastN(Highs(before), k) + [h.high], LastN(Lows(before), k) + [h.low]);
            && |hi| == |lo|
            && LastN(Highs(before + [h]), k) == (if |hi| > k then hi[1..] else hi)
            && LastN(Lows(before + [h]), k) == (if |lo| > k then lo[1..] else lo)
  {
    hide LastN;
    assert Highs(before + [h]) == Highs(before) + [h.high];
    assert Lows(before + [h]) == Lows(before) + [h.low];
    LastNStep(Highs(before), h.high, k);
    LastNStep(Lows(before), h.low, k);
  }

  /** The first value comes with candle k + 2d - 2 (%K period 0 counting as 1), and every later candle brings one. */
  lemma StochasticWarmUp(hs: seq<Hlc>, k: nat, d: nat)
    requires d >= 1
    ensures StochasticOf(hs, k, d).Some? <==> |hs| >= FirstWindow(k) + 2 * d - 2
  {
  }

  /** The number of candles the stochastic declares to need. */
  function StochasticRequires(k: nat, d: nat): nat
    requires d >= 1
  {
    k + 2 * d - 2
  }

  ghost predicate DeclaredWarmUpIsExact(k: nat, d: nat)
    requires d >= 1
  {
    forall hs :: StochasticOf(hs, k, d).Some? <==> |hs| >= StochasticRequires(k, d)
  }

  /** The declared number of candles is the true one unless the %K period is 0. */
  lemma DeclaredStochasticWarmUpIsExact(k: nat, d: nat)
    requires d >= 1
    ensures DeclaredWarmUpIsExact(k, d) <==> k >= 1
  {
    hide StochasticOf;
    forall hs ensures StochasticOf(hs, k, d).Some? <==> |hs| >= FirstWindow(k) + 2 * d - 2 {
      StochasticWarmUp(hs, k, d);
    }
    if k == 0 {
      var hs := seq(2 * d - 2, i => Hlc(1.0, 1.0, 1.0));
      assert StochasticOf(hs, k, d).None?;
    }
  }

  ghost predicate CandlesSound(hs: seq<Hlc>) {
    forall i :: 0 <= i < |hs| ==> hs[i].low <= hs[i].close <= hs[i].high
  }

  lemma PercentRange(close: real, lowest: real, highest: real)
    requires lowest <= close <= highest
    ensures 0.0 <= FastK(highest, lowest, close) <= 100.0
  {
    var range := highest - lowest;
    if range > 0.0 {
      assert range * 0.0 == 0.0 && range * 1.0 == range;
      QuotientWithin(close - lowest, range, 0.0, 1.0);
    }
  }

  lemma FastKOfRange(window: seq<Hlc>)
    requires CandlesSound(window)
    ensures 0.0 <= FastKOf(window) <= 100.0
  {
    hide FastK, Greatest, Least;
    if window != [] {
      var n := |window| - 1;
      assert Highs(window)[n] == window[n].high && Lows(window)[n] == window[n].low;
      PercentRange(window[n].close, Least(Lows(window)), Greatest(Highs(window)));
    }
  }

  lemma FastKRange(hs: seq<Hlc>, k: nat)
    requires CandlesSound(hs)
    ensures Within(FastKs(hs, k), 0.0, 100.0)
  {
    hide FastKOf, FastKs;
    forall i | 0 <= i < |FastKs(hs, k)| ensures 0.0 <= FastKs(hs, k)[i] <= 100.0 {
      FastKsAt(hs, k, i);
      FastKOfRange(hs[i + FirstWindow(k) - k..i + FirstWindow(k)]);
    }
  }

  /** On candles with low <= close <= high both lines stay between 0 and 100. */
  lemma StochasticRange(hs: seq<Hlc>, k: nat, d: nat)
    requires d >= 1 && CandlesSound(hs)
    requires StochasticOf(hs, k, d).Some?
    ensures var v := StochasticOf(hs, k, d).value;
            0.0 <= v.k <= 100.0 && 0.0 <= v.d <= 100.0
  {
    hide FastKs, Mean, Sum, SmaSeries;
    var fast := FastKs(hs, k);
    var slow := SmaSeries(fast, d);
    FastKRange(hs, k);
    SmaSeriesWithin(fast, d, 0.0, 100.0);
    MeanWithin(fast[|fast| - d..], 0.0, 100.0);
    MeanWithin(slow[|slow| - d..], 0.0, 100.0);
  }

  // ---------------------------------------------------------------------------
  // RSI with Wilder smoothing
  // ---------------------------------------------------------------------------

  function Gain(change: real): real { if change > 0.0 then change else 0.0 }

  function Loss(change: real): real { if change < 0.0 then -change else 0.0 }

  function Move(closes: seq<real>, i: nat): real
    requires i + 1 < |closes|
  {
    closes[i + 1] - closes[i]
  }

  /** The rises between consecutive closes, a fall counting as 0. */
  function Gains(closes: seq<real>): (r: seq<real>)
    ensures |r| == if closes == [] then 0 else |closes| - 1
  {
    if closes == [] then []
    else seq(|closes| - 1, i requires 0 <= i < |closes| - 1 => Gain(Move(closes, i)))
  }

  /** The falls between consecutive closes, a rise counting as 0. */
  function Losses(closes: seq<real>): (r: seq<real>)
    ensures |r| == if closes == [] then 0 else |closes| - 1
  {
    if closes == [] then []
    else seq(|closes| - 1, i requires 0 <= i < |closes| - 1 => Loss(Move(closes, i)))
  }

  lemma MovesAreNonNegative(closes: seq<real>)
    ensures NonNegative(Gains(closes)) && NonNegative(Losses(closes))
  {
  }

  ghost predicate NonNegative(xs: seq<real>) {
    forall i :: 0 <= i < |xs| ==> xs[i] >= 0.0
  }

  /** The mean of the first `period` values, then (previous * (period - 1) + value) / period. */
  function WilderOf(xs: seq<real>, period: nat): Option<real> {
    if period == 0 || |xs| < period then None
    else if |xs| == period then Some(Mean(xs))
    else Some(Smoothed(WilderOf(xs[..|xs| - 1], period).value, xs[|xs| - 1], period))
  }

  function Smoothed(prev: real, x: real, period: nat): real
    requires period >= 1
  {
    (prev * (period as real - 1.0) + x) / (period as real)
  }

  function RsiFrom(avgGain: real, avgLoss: real): real
    requires avgGain >= 0.0 && avgLoss >= 0.0
  {
    if avgLoss == 0.0 then 100.0
    else
      RatioDefined(avgGain, avgLoss);
      100.0 - (100.0 / (1.0 + avgGain / avgLoss))
  }

  lemma RatioDefined(g: real, l: real)
    requires g >= 0.0 && l > 0.0
    ensures g / l >= 0.0 && 1.0 + g / l >= 1.0
  {
    var q := g / l;
    assert q * l == g && (0.0 - q) * l == -g;
    ProductSign(0.0 - q, l);
  }

  lemma {:induction false} WilderNonNegative(xs: seq<real>, period: nat)
    requires NonNegative(xs)
    requires WilderOf(xs, period).Some?
    ensures WilderOf(xs, period).value >= 0.0
  {
    if |xs| == period {
      SumNonNegative(xs);
      QuotientNonNegative(Sum(xs), |xs| as real);
    } else {
      var prev := WilderOf(xs[..|xs| - 1], period).value;
      WilderNonNegative(xs[..|xs| - 1], period);
      ProductSign(prev, period as real - 1.0);
      QuotientNonNegative(prev * (period as real - 1.0) + xs[|xs| - 1], period as real);
    }
  }

  lemma {:induction false} SumNonNegative(xs: seq<real>)
    requires NonNegative(xs)
    ensures Sum(xs) >= 0.0
  {
    if xs != [] {
      SumNonNegative(xs[..|xs| - 1]);
    }
  }

  lemma QuotientNonNegative(s: real, n: real)
    requires s >= 0.0 && n > 0.0
    ensures s / n >= 0.0
  {
    var q := s / n;
    assert q * n == s && (0.0 - q) * n == -s;
    ProductSign(0.0 - q, n);
  }

  /** Both smoothed averages after the given closes. */
  datatype Averages = Averages(gain: Option<real>, loss: Option<real>)

  function AveragesOf(closes: seq<real>, period: nat): (a: Averages)
    ensures a.gain.Some? <==> a.loss.Some?
    ensures a.gain.Some? <==> period >= 1 && |closes| >= period + 1
    ensures a.gain.Some? ==> a.gain.value >= 0.0 && a.loss.value >= 0.0
  {
    var g, l := WilderOf(Gains(closes), period), WilderOf(Losses(closes), period);
    if g.None? then Averages(None, None)
    else
      MovesAreNonNegative(closes);
      WilderNonNegative(Gains(closes), period);
      WilderNonNegative(Losses(closes), period);
      Averages(g, l)
  }

  function RsiOf(closes: seq<real>, period: nat): Option<real> {
    var a := AveragesOf(closes, period);
    if a.gain.None? then None else Some(RsiFrom(a.gain.value, a.loss.value))
  }

  lemma GainsStep(before: seq<real>, close: real)
    requires before != []
    ensures Gains(before + [close]) == Gains(before) + [Gain(close - before[|before| - 1])]
    ensures Losses(before + [close]) == Losses(before) + [Loss(close - before[|before| - 1])]
  {
    hide Gain, Loss;
    var fed := before + [close];
    assert forall i :: 0 <= i < |before| - 1 ==> Move(fed, i) == Move(before, i);
    assert Move(fed, |before| - 1) == close - before[|before| - 1];
  }

  lemma WilderStep(xs: seq<real>, x: real, period: nat)
    requires period >= 1
    ensures WilderOf(xs + [x], period)
         == if |xs| + 1 < period then None
            else if |xs| + 1 == period then Some(Mean(xs + [x]))
            else Some(Smoothed(WilderOf(xs, period).value, x, period))
  {
    assert (xs + [x])[..|xs|] == xs;
  }

  /** How the averages move with one more close. */
  lemma AveragesStep(before: seq<real>, close: real, period: nat)
    requires before != []
    ensures var (a, b) := (AveragesOf(before, period), AveragesOf(before + [close], period));
            var change := close - before[|before| - 1];
            if a.gain.Some? then
              b == Averages(Some(Smoothed(a.gain.value, Gain(change), period)),
                            Some(Smoothed(a.loss.value, Loss(change), period)))
            else if |before| == period then
              b == Averages(Some(Mean(Gains(before) + [Gain(change)])), Some(Mean(Losses(before) + [Loss(change)])))
            else b == Averages(None, None)
  {
    var change := close - before[|before| - 1];
    GainsStep(before, close);
    if period >= 1 {
      WilderStep(Gains(before), Gain(change), period);
      WilderStep(Losses(before), Loss(change), period);
    }
  }

  class Rsi {
    const period: nat
    var avgGain: Option<real>
    var avgLoss: Option<real>
    var prevClose: Option<real>
    var gains: seq<real>
    var losses: seq<real>
    ghost var fed: seq<real>

    ghost predicate Valid()
      reads this
    {
      && prevClose == (if fed == [] then None else Some(fed[|fed| - 1]))
      && Averages(avgGain, avgLoss) == AveragesOf(fed, period)
      && (avgGain == None ==> gains == Gains(fed) && losses == Losses(fed))
    }

    constructor (period: nat)
      ensures Valid() && this.period == period && fed == []
    {
      this.period := period;
      avgGain, avgLoss, prevClose := None, None, None;
      gains, losses, fed := [], [], [];
    }

    method Next(close: real) returns (r: Option<real>)
      requires Valid()
      modifies this
      ensures Valid() && fed == old(fed) + [close]
      ensures r == RsiOf(fed, period)
    {
      hide Smoothed, RsiFrom, WilderOf, Mean;
      r := None;
      if prevClose.Some? {
        AveragesStep(fed, close, period);
        GainsStep(fed, close);
        var change := close - prevClose.value;
        var gain := Gain(change);
        var loss := Loss(change);
        if avgGain.Some? && avgLoss.Some? {
          avgGain := Some(Smoothed(avgGain.value, gain, period));
          avgLoss := Some(Smoothed(avgLoss.value, loss, period));
          r := Some(RsiFrom(avgGain.value, avgLoss.value));
        } else {
          gains := gains + [gain];
          losses := losses + [loss];
          if |gains| == period {
            avgGain := Some(Mean(gains));
            avgLoss := Some(Mean(losses));
            r := Some(RsiFrom(avgGain.value, avgLoss.value));
          }
        }
      }
      prevClose := Some(close);
      fed := fed + [close];
    }

    method Reset()
      requires Valid()
      modifies this
      ensures Valid() && fed == []
    {
      avgGain, avgLoss, prevClose := None, None, None;
      gains, losses, fed := [], [], [];
    }
  }

  /** The first value comes with close number period + 1; with period 0 none ever comes. */
  lemma RsiWarmUp(closes: seq<real>, period: nat)
    ensures RsiOf(closes, period).Some? <==> period >= 1 && |closes| >= period + 1
  {
  }

  /** The value is the gain share of all movement, in percent; without losses it is 100. */
  lemma RsiIsGainShare(g: real, l: real)
    requires g >= 0.0 && l >= 0.0 && g + l > 0.0
    ensures RsiFrom(g, l) == 100.0 * (g / (g + l))
    ensures 0.0 <= RsiFrom(g, l) <= 100.0
  {
    var share := g / (g + l);
    assert share * (g + l) == g;
    assert (g + l) * 0.0 == 0.0 && (g + l) * 1.0 == g + l;
    QuotientWithin(g, g + l, 0.0, 1.0);
    if l == 0.0 {
      assert (share - 1.0) * g == 0.0;
      ProductSign(share - 1.0, g);
      ProductSign(1.0 - share, g);
    } else {
      RatioDefined(g, l);
      var q := g / l;
      assert q * l == g;
      assert (1.0 + q) * l == g + l;
      ReciprocalShare(q, l, g, share);
    }
  }

  lemma ReciprocalShare(q: real, l: real, g: real, share: real)
    requires l > 0.0 && g >= 0.0 && q >= 0.0 && q * l == g && share * (g + l) == g
    ensures 100.0 - 100.0 / (1.0 + q) == 100.0 * share
  {
    var inv := 100.0 / (1.0 + q);
    assert inv * (1.0 + q) == 100.0;
    var diff := inv - 100.0 * (1.0 - share);
    assert (1.0 - share) * ((1.0 + q) * l) == l by {
      assert (1.0 + q) * l == g + l;
    }
    assert (1.0 - share) * (1.0 + q) * l == l;
    CancelFactor((1.0 - share) * (1.0 + q), 1.0, l);
    CancelFactor(1.0, (1.0 - share) * (1.0 + q), l);
    assert diff * (1.0 + q) == 0.0;
    CancelFactor(diff, 0.0, 1.0 + q);
    CancelFactor(0.0, diff, 1.0 + q);
  }

  /** Every value of the indicator lies between 0 and 100. */
  lemma RsiRange(closes: seq<real>, period: nat)
    requires RsiOf(closes, period).Some?
    ensures 0.0 <= RsiOf(closes, period).value <= 100.0
  {
    var a := AveragesOf(closes, period);
    if a.loss.value > 0.0 {
      RsiIsGainShare(a.gain.value, a.loss.value);
    }
  }

  // ---------------------------------------------------------------------------
  // MACD
  // ---------------------------------------------------------------------------

  datatype MacdValues = MacdValues(macd: real, signal: real, histogram: real)

  /** The slow average is fed only from the first close on which the fast one has a value. */
  function SlowFeed(closes: seq<real>, fast: nat): (r: seq<real>)
    requires fast >= 1
    ensures |r| == if |closes| < fast then 0 else |closes| - fast + 1
  {
    if |closes| < fast then [] else closes[fast - 1..]
  }

  function MacdLine(closes: seq<real>, fast: nat, slow: nat): (ys: seq<real>)
    requires fast >= 1 && slow >= 1
    ensures |ys| == if |closes| < fast + slow - 1 then 0 else |closes| - (fast + slow - 1) + 1
  {
    if |closes| < fast + slow - 1 then []
    else
      MacdLine(closes[..|closes| - 1], fast, slow)
      + [EmaOf(closes, fast).value - EmaOf(SlowFeed(closes, fast), slow).value]
  }

  function MacdOf(closes: seq<real>, fast: nat, slow: nat, signal: nat): Option<MacdValues>
    requires fast >= 1 && slow >= 1 && signal >= 1
  {
    var line := MacdLine(closes, fast, slow);
    if |line| < signal then None
    else
      var s := EmaOf(line, signal).value;
      Some(MacdValues(line[|line| - 1], s, line[|line| - 1] - s))
  }

  class Macd {
    const fastPeriod: nat
    const slowPeriod: nat
    const signalPeriod: nat
    const fastEma: Ema
    const slowEma: Ema
    const signalEma: Ema
    ghost var fed: seq<real>

    ghost function Repr(): set<object> {
      {this, fastEma, fastEma.sma, slowEma, slowEma.sma, signalEma, signalEma.sma}
    }

    ghost predicate Valid()
      reads Repr()
    {
      && fastPeriod >= 1 && slowPeriod >= 1 && signalPeriod >= 1
      && Apart()
      && fastEma.Valid() && fastEma.period == fastPeriod && fastEma.fed == fed
      && slowEma.Valid() && slowEma.period == slowPeriod && slowEma.fed == SlowFeed(fed, fastPeriod)
      && signalEma.Valid() && signalEma.period == signalPeriod
      && signalEma.fed == MacdLine(fed, fastPeriod, slowPeriod)
    }

    /** The three averages share nothing. */
    ghost predicate Apart() {
      && fastEma != slowEma && fastEma != signalEma && slowEma != signalEma
      && fastEma.sma != slowEma.sma && fastEma.sma != signalEma.sma && slowEma.sma != signalEma.sma
    }

    constructor (fast: nat, slow: nat, signal: nat)
      requires fast >= 1 && slow >= 1 && signal >= 1
      ensures Valid() && fresh(Repr()) && fed == []
      ensures fastPeriod == fast && slowPeriod == slow && signalPeriod == signal
    {
      fastPeriod, slowPeriod, signalPeriod := fast, slow, signal;
      fed := [];
      fastEma := new Ema(fast);
      slowEma := new Ema(slow);
      signalEma := new Ema(signal);
    }

    method Next(close: real) returns (r: Option<MacdValues>)
      requires Valid()
      modifies Repr()
      ensures Valid() && fed == old(fed) + [close]
      ensures r == MacdOf(fed, fastPeriod, slowPeriod, signalPeriod)
    {
      hide EmaOf, MacdLine, SlowFeed, Weight, Ema.Valid, Sma.Valid;
      MacdStep(fed, close, fastPeriod, slowPeriod);
      fed := fed + [close];
      var fast := fastEma.Next(close);
      if fast.None? {
        return None;
      }
      var slow := slowEma.Next(close);
      if slow.None? {
        return None;
      }
      var macdLine := fast.value - slow.value;
      var signalLine := signalEma.Next(macdLine);
      if signalLine.None? {
        return None;
      }
      r := Some(MacdValues(macdLine, signalLine.value, macdLine - signalLine.value));
    }
  }

  lemma MacdStep(before: seq<real>, close: real, fast: nat, slow: nat)
    requires fast >= 1 && slow >= 1
    ensures var fed := before + [close];
            && SlowFeed(fed, fast) == (if |fed| < fast then [] else SlowFeed(before, fast) + [close])
            && MacdLine(fed, fast, slow)
               == if |fed| < fast + slow - 1 then []
                  else MacdLine(before, fast, slow)
                       + [EmaOf(fed, fast).value - EmaOf(SlowFeed(fed, fast), slow).value]
  {
    hide EmaOf, MacdLine, SlowFeed;
    SlowFeedStep(before, close, fast);
    MacdLineStep(before, close, fast, slow);
  }

  lemma SlowFeedStep(before: seq<real>, close: real, fast: nat)
    requires fast >= 1
    ensures var fed := before + [close];
            SlowFeed(fed, fast) == if |fed| < fast then [] else SlowFeed(before, fast) + [close]
  {
  }

  lemma MacdLineStep(before: seq<real>, close: real, fast: nat, slow: nat)
    requires fast >= 1 && slow >= 1
    ensures var fed := before + [close];
            MacdLine(fed, fast, slow)
            == if |fed| < fast + slow - 1 then []
               else MacdLine(before, fast, slow)
                    + [EmaOf(fed, fast).value - EmaOf(SlowFeed(fed, fast), slow).value]
  {
    hide EmaOf, SlowFeed;
    assert (before + [close])[..|before|] == before;
  }

  /** The first value comes with close number fast + slow + signal - 2. */
  lemma MacdWarmUp(closes: seq<real>, fast: nat, slow: nat, signal: nat)
    requires fast >= 1 && slow >= 1 && signal >= 1
    ensures MacdOf(closes, fast, slow, signal).Some? <==> |closes| >= fast + slow + signal - 2
  {
  }

  /** Every output of a stream of closes, in order. */
  function MacdSeries(closes: seq<real>, fast: nat, slow: nat, signal: nat): (ys: seq<MacdValues>)
    requires fast >= 1 && slow >= 1 && signal >= 1
    ensures |ys| == if |closes| < fast + slow + signal - 2 then 0 else |closes| - (fast + slow + signal - 2) + 1
  {
    if closes == [] then []
    else
      var v := MacdOf(closes, fast, slow, signal);
      MacdSeries(closes[..|closes| - 1], fast, slow, signal) + if v.Some? then [v.value] else []
  }

  lemma MacdSeriesStep(closes: seq<real>, c: real, fast: nat, slow: nat, signal: nat)
    requires fast >= 1 && slow >= 1 && signal >= 1
    ensures var v := MacdOf(closes + [c], fast, slow, signal);
            MacdSeries(closes + [c], fast, slow, signal)
            == MacdSeries(closes, fast, slow, signal) + if v.Some? then [v.value] else []
  {
    assert (closes + [c])[..|closes|] == closes;
  }

  /** Batch calculation, refusing lists shorter than the declared requirement. */
  method CalculateMacd(fast: nat, slow: nat, signal: nat, closes: seq<real>)
    returns (r: Result<seq<MacdValues>, InsufficientData>)
    requires fast >= 1 && slow >= 1 && signal >= 1
    ensures r == if |closes| < MacdRequires(slow, signal) then Err(InsufficientData(MacdRequires(slow, signal), |closes|))
                 else Ok(MacdSeries(closes, fast, slow, signal))
  {
    hide *;
    var required := MacdRequires(slow, signal);
    if |closes| < required {
      return Err(InsufficientData(required, |closes|));
    }
    var macd := new Macd(fast, slow, signal);
    var out: seq<MacdValues> := [];
    for i := 0 to |closes|
      invariant fresh(macd.Repr()) && macd.Valid() && macd.fed == closes[..i]
      invariant macd.fastPeriod == fast && macd.slowPeriod == slow && macd.signalPeriod == signal
      invariant out == MacdSeries(closes[..i], fast, slow, signal)
    {
      MacdSeriesStep(closes[..i], closes[i], fast, slow, signal);
      assert closes[..i + 1] == closes[..i] + [closes[i]];
      var v := macd.Next(closes[i]);
      if v.Some? {
        out := out + [v.value];
      }
    }
    assert closes[..|closes|] == closes;
    r := Ok(out);
  }

  /** The number of candles MACD declares to need. */
  function MacdRequires(slow: nat, signal: nat): nat
    requires slow >= 1 && signal >= 1
  {
    slow + signal - 1
  }

  ghost predicate DeclaredMacdWarmUpIsExact(fast: nat, slow: nat, signal: nat)
    requires fast >= 1 && slow >= 1 && signal >= 1
  {
    forall closes: seq<real> :: MacdSeries(closes, fast, slow, signal) != [] <==> |closes| >= MacdRequires(slow, signal)
  }

  /** The declared number of candles is the true one exactly when the fast period is 1. */
  lemma DeclaredMacdWarmUpIsExactOnlyForFastOne(fast: nat, slow: nat, signal: nat)
    requires fast >= 1 && slow >= 1 && signal >= 1
    ensures DeclaredMacdWarmUpIsExact(fast, slow, signal) <==> fast == 1
  {
    hide MacdSeries;
    if fast != 1 {
      var closes := seq(slow + signal - 1, i => 0.0);
      assert MacdSeries(closes, fast, slow, signal) == [];
    }
  }

  /** The i-th batch value is that of the closes up to its own. */
  lemma {:induction false} MacdSeriesAt(closes: seq<real>, fast: nat, slow: nat, signal: nat, i: nat)
    requires fast >= 1 && slow >= 1 && signal >= 1 && i + fast + slow + signal - 2 <= |closes|
    ensures Some(MacdSeries(closes, fast, slow, signal)[i]) == MacdOf(closes[..i + fast + slow + signal - 2], fast, slow, signal)
  {
    hide MacdOf, MacdSeries;
    var front, last := closes[..|closes| - 1], closes[|closes| - 1];
    assert closes == front + [last];
    MacdSeriesStep(front, last, fast, slow, signal);
    if i + fast + slow + signal - 2 < |closes| {
      MacdSeriesAt(front, fast, slow, signal, i);
      assert front[..i + fast + slow + signal - 2] == closes[..i + fast + slow + signal - 2];
    } else {
      MacdWarmUp(closes, fast, slow, signal);
      assert closes[..i + fast + slow + signal - 2] == closes;
    }
  }

  // ---------------------------------------------------------------------------
  // The values in plain terms
  // ---------------------------------------------------------------------------

  ghost predicate IsWindowRange(window: seq<Hlc>, hi: real, lo: real) {
    && (exists i :: 0 <= i < |window| && window[i].high == hi)
    && (exists i :: 0 <= i < |window| && window[i].low == lo)
    && (forall i :: 0 <= i < |window| ==> lo <= window[i].low && window[i].high <= hi)
  }

  /** Fast %K of a window is the place of its last close between its lowest low (0) and highest high (100). */
  lemma FastKIsPlaceInRange(window: seq<Hlc>, hi: real, lo: real)
    requires window != [] && IsWindowRange(window, hi, lo)
    ensures hi > lo ==> FastKOf(window) * (hi - lo) == 100.0 * (window[|window| - 1].close - lo)
    ensures hi <= lo ==> FastKOf(window) == 50.0
  {
    hide Greatest, Least;
    var (h, l) := (Greatest(Highs(window)), Least(Lows(window)));
    var i :| 0 <= i < |window| && window[i].high == hi;
    var j :| 0 <= j < |window| && window[j].low == lo;
    assert Highs(window)[i] == hi && Lows(window)[j] == lo;
    assert h == hi && l == lo;
    if hi > lo {
      var q := (window[|window| - 1].close - lo) / (hi - lo);
      QuotientTimesDivisor(window[|window| - 1].close - lo, hi - lo);
      assert (q * 100.0) * (hi - lo) == 100.0 * (q * (hi - lo));
    }
  }

  /** Fast %K is 0 at the bottom of the range, 100 at the top, and grows with the close. */
  lemma FastKIsMonotone(highest: real, lowest: real, a: real, b: real)
    requires lowest < highest
    ensures FastK(highest, lowest, lowest) == 0.0 && FastK(highest, lowest, highest) == 100.0
    ensures a < b ==> FastK(highest, lowest, a) < FastK(highest, lowest, b)
  {
    var range := highest - lowest;
    QuotientTimesDivisor(a - lowest, range);
    QuotientTimesDivisor(b - lowest, range);
    QuotientTimesDivisor(range, range);
    CancelFactor((a - lowest) / range, (b - lowest) / range, range);
    CancelFactor(range / range, 1.0, range);
    CancelFactor(1.0, range / range, range);
  }

  /** Slow %K is the mean of the last `d` values of fast %K, and %D of the last `d` values of slow %K. */
  lemma SlowLinesAreMeans(hs: seq<Hlc>, k: nat, d: nat)
    requires d >= 1 && StochasticOf(hs, k, d).Some?
    ensures var (fast, v) := (FastKs(hs, k), StochasticOf(hs, k, d).value);
            var slow := SmaSeries(fast, d);
            && |fast| >= d && v.k == Mean(fast[|fast| - d..])
            && |slow| >= d && v.d == Mean(slow[|slow| - d..])
            && slow[|slow| - 1] == v.k
  {
    hide FastKs, Mean, SmaSeries;
    var fast := FastKs(hs, k);
    SmaSeriesIsWindowMeans(fast, d, |fast| - d);
    assert fast[|fast| - d..|fast| - d + d] == fast[|fast| - d..];
  }

  /** Every move is a rise or a fall: their difference is the move, and one of them is 0. */
  lemma MovesSplit(closes: seq<real>, i: nat)
    requires i + 1 < |closes|
    ensures var (g, l) := (Gains(closes)[i], Losses(closes)[i]);
            && g - l == closes[i + 1] - closes[i]
            && g >= 0.0 && l >= 0.0 && (g == 0.0 || l == 0.0)
  {
  }

  /** Wilder's average starts as a mean and then moves by one part in `period` of the distance. */
  lemma WilderMoves(xs: seq<real>, x: real, period: nat)
    requires 1 <= period <= |xs|
    ensures |xs| == period ==> WilderOf(xs, period) == Some(Mean(xs))
    ensures WilderOf(xs, period).Some? && WilderOf(xs + [x], period).Some?
    ensures var (prev, next) := (WilderOf(xs, period).value, WilderOf(xs + [x], period).value);
            period as real * (next - prev) == x - prev
  {
    hide Mean;
    WilderStep(xs, x, period);
    var n, prev := period as real, WilderOf(xs, period).value;
    QuotientTimesDivisor(prev * (n - 1.0) + x, n);
    var next := (prev * (n - 1.0) + x) / n;
    assert n * (next - prev) == next * n - prev * n;
    assert prev * (n - 1.0) == prev * n - prev;
  }

  /** The indicator is the share of the smoothed rises in all smoothed movement, in percent; 100 when nothing moves or nothing falls. */
  lemma RsiIsShareOfRises(closes: seq<real>, period: nat)
    requires 1 <= period < |closes|
    ensures WilderOf(Gains(closes), period).Some? && WilderOf(Losses(closes), period).Some?
    ensures var (g, l) := (WilderOf(Gains(closes), period).value, WilderOf(Losses(closes), period).value);
            && g >= 0.0 && l >= 0.0
            && (l == 0.0 ==> RsiOf(closes, period) == Some(100.0))
            && (l > 0.0 ==> RsiOf(closes, period) == Some(100.0 * (g / (g + l))))
  {
    hide WilderOf, RsiFrom, Gains, Losses;
    var a := AveragesOf(closes, period);
    WilderReady(Gains(closes), period);
    WilderReady(Losses(closes), period);
    assert a == Averages(WilderOf(Gains(closes), period), WilderOf(Losses(closes), period));
    var (g, l) := (a.gain.value, a.loss.value);
    if l > 0.0 {
      RsiIsGainShare(g, l);
    } else {
      RsiWithoutFalls(g);
    }
  }

  lemma WilderReady(xs: seq<real>, period: nat)
    requires 1 <= period <= |xs|
    ensures WilderOf(xs, period).Some?
  {
  }

  lemma RsiWithoutFalls(g: real)
    requires g >= 0.0
    ensures RsiFrom(g, 0.0) == 100.0
  {
  }

  lemma {:induction false} WilderOfZeros(xs: seq<real>, period: nat)
    requires 1 <= period <= |xs| && forall i :: 0 <= i < |xs| ==> xs[i] == 0.0
    ensures WilderOf(xs, period) == Some(0.0)
  {
    if |xs| == period {
      assert Within(xs, 0.0, 0.0);
      MeanWithin(xs, 0.0, 0.0);
    } else {
      WilderOfZeros(xs[..|xs| - 1], period);
      assert 0.0 * (period as real - 1.0) + 0.0 == 0.0;
    }
  }

  lemma {:induction false} WilderOfPositive(xs: seq<real>, period: nat)
    requires 1 <= period <= |xs| && forall i :: 0 <= i < |xs| ==> xs[i] > 0.0
    ensures WilderOf(xs, period).Some? && WilderOf(xs, period).value > 0.0
  {
    if |xs| == period {
      SumPositive(xs);
      QuotientPositive(Sum(xs), |xs| as real);
    } else {
      var front, n := xs[..|xs| - 1], period as real;
      WilderOfPositive(front, period);
      var prev := WilderOf(front, period).value;
      ProductSign(prev, n - 1.0);
      QuotientPositive(prev * (n - 1.0) + xs[|xs| - 1], n);
    }
  }

  lemma {:induction false} SumPositive(xs: seq<real>)
    requires xs != [] && forall i :: 0 <= i < |xs| ==> xs[i] > 0.0
    ensures Sum(xs) > 0.0
  {
    if |xs| > 1 {
      SumPositive(xs[..|xs| - 1]);
    } else {
      assert xs[..0] == [];
    }
  }

  lemma QuotientPositive(s: real, n: real)
    requires s > 0.0 && n > 0.0
    ensures s / n > 0.0
  {
    QuotientTimesDivisor(s, n);
    ProductSign(-(s / n), n);
  }

  /** On closes that never fall the indicator is 100, on closes that only fall it is 0. */
  lemma RsiAtTheExtremes(closes: seq<real>, period: nat)
    requires 1 <= period < |closes|
    ensures (forall i :: 0 <= i < |closes| - 1 ==> closes[i] <= closes[i + 1]) ==> RsiOf(closes, period) == Some(100.0)
    ensures (forall i :: 0 <= i < |closes| - 1 ==> closes[i] > closes[i + 1]) ==> RsiOf(closes, period) == Some(0.0)
  {
    hide WilderOf, RsiOf, Gains, Losses;
    RsiIsShareOfRises(closes, period);
    if forall i :: 0 <= i < |closes| - 1 ==> closes[i] <= closes[i + 1] {
      NoFalls(closes);
      WilderOfZeros(Losses(closes), period);
    }
    if forall i :: 0 <= i < |closes| - 1 ==> closes[i] > closes[i + 1] {
      OnlyFalls(closes);
      WilderOfZeros(Gains(closes), period);
      WilderOfPositive(Losses(closes), period);
      NothingOfSomething(WilderOf(Losses(closes), period).value);
    }
  }

  lemma NoFalls(closes: seq<real>)
    requires closes != [] && forall i :: 0 <= i < |closes| - 1 ==> closes[i] <= closes[i + 1]
    ensures forall i :: 0 <= i < |Losses(closes)| ==> Losses(closes)[i] == 0.0
  {
  }

  lemma OnlyFalls(closes: seq<real>)
    requires closes != [] && forall i :: 0 <= i < |closes| - 1 ==> closes[i] > closes[i + 1]
    ensures forall i :: 0 <= i < |Gains(closes)| ==> Gains(closes)[i] == 0.0
    ensures forall i :: 0 <= i < |Losses(closes)| ==> Losses(closes)[i] > 0.0
  {
  }

  lemma NothingOfSomething(l: real)
    requires l > 0.0
    ensures 100.0 * (0.0 / (0.0 + l)) == 0.0
  {
    QuotientTimesDivisor(0.0, l);
    CancelFactor(0.0 / l, 0.0, l);
    CancelFactor(0.0, 0.0 / l, l);
  }

  /**
   The line after all closes is the fast average of all of them less the slow average of those from
   number `fast` on; the signal averages the lines so far, and the histogram is what the line is above it.
   */
  lemma MacdMeans(closes: seq<real>, fast: nat, slow: nat, signal: nat)
    requires fast >= 1 && slow >= 1 && signal >= 1 && |closes| >= fast + slow + signal - 2
    ensures MacdOf(closes, fast, slow, signal).Some?
    ensures var v := MacdOf(closes, fast, slow, signal).value;
            && v.macd == EmaOf(closes, fast).value - EmaOf(closes[fast - 1..], slow).value
            && EmaOf(MacdLine(closes, fast, slow), signal) == Some(v.signal)
            && v.histogram == v.macd - v.signal
  {
    hide EmaOf;
  }

  /** Each line so far is the one after the closes up to it. */
  lemma {:induction false} MacdLineAt(closes: seq<real>, fast: nat, slow: nat, i: nat)
    requires fast >= 1 && slow >= 1 && i + fast + slow - 1 <= |closes|
    ensures var upTo := closes[..i + fast + slow - 1];
            MacdLine(closes, fast, slow)[i] == EmaOf(upTo, fast).value - EmaOf(upTo[fast - 1..], slow).value
  {
    hide EmaOf;
    if i + fast + slow - 1 < |closes| {
      var front := closes[..|closes| - 1];
      MacdLineAt(front, fast, slow, i);
      assert front[..i + fast + slow - 1] == closes[..i + fast + slow - 1];
    } else {
      assert closes[..i + fast + slow - 1] == closes;
    }
  }
}

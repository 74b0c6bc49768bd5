/**
 The rolling averages, over the reals.  Each object keeps a window or a running value; its
 ghost history `fed` records everything it was given, and its output is a function of that.
 A period is at least 1: at period 0 the original divides by zero.
 */
module MovingAverages {
  import opened Arithmetic
  import opened Wrappers

  function Sum(xs: seq<real>): real {
    if xs == [] then 0.0 else Sum(xs[..|xs| - 1]) + xs[|xs| - 1]
  }

  function Mean(xs: seq<real>): real
    requires xs != []
  {
    Sum(xs) / (|xs| as real)
  }

  function LastN<T>(xs: seq<T>, n: nat): (r: seq<T>)
    ensures |r| == if |xs| <= n then |xs| else n
  {
    if |xs| <= n then xs else xs[|xs| - n..]
  }

  /** A full window drops its first element when the next one arrives. */
  lemma LastNStep<T>(xs: seq<T>, x: T, n: nat)
    ensures var w := LastN(xs, n) + [x];
            LastN(xs + [x], n) == if |w| > n then w[1..] else w
  {
  }

  lemma {:induction false} SumTail(xs: seq<real>)
    requires xs != []
    ensures Sum(xs) == xs[0] + Sum(xs[1..])
  {
    if |xs| == 1 {
      assert xs[..0] == [] && xs[1..] == [];
    } else {
      var front := xs[..|xs| - 1];
      SumTail(front);
      assert front[1..] == xs[1..][..|xs| - 2];
    }
  }

  ghost predicate Within(xs: seq<real>, lo: real, hi: real) {
    forall i :: 0 <= i < |xs| ==> lo <= xs[i] <= hi
  }

  lemma {:induction false} SumWithin(xs: seq<real>, lo: real, hi: real)
    requires Within(xs, lo, hi)
    ensures lo * |xs| as real <= Sum(xs) <= hi * |xs| as real
  {
    if xs != [] {
      SumWithin(xs[..|xs| - 1], lo, hi);
      OneMore(lo, |xs| - 1);
      OneMore(hi, |xs| - 1);
    }
  }

  lemma OneMore(x: real, n: nat)
    ensures x * (n + 1) as real == x * n as real + x
  {
  }

  /** A mean lies between the bounds of its values. */
  lemma MeanWithin(xs: seq<real>, lo: real, hi: real)
    requires xs != [] && Within(xs, lo, hi)
    ensures lo <= Mean(xs) <= hi
  {
    SumWithin(xs, lo, hi);
    QuotientWithin(Sum(xs), |xs| as real, lo, hi);
  }

  // ---------------------------------------------------------------------------
  // Simple moving average
  // ---------------------------------------------------------------------------

  /** The average of the last `period` values, once there are that many. */
  function SmaOf(fed: seq<real>, period: nat): (r: Option<real>)
    requires period >= 1
    ensures r.Some? <==> |fed| >= period
  {
    if |fed| < period then None else Some(Mean(fed[|fed| - period..]))
  }

  lemma SmaOfWindow(fed: seq<real>, period: nat)
    requires period >= 1
    ensures var w := LastN(fed, period);
            SmaOf(fed, period) == if |w| == period then Some(Sum(w) / period as real) else None
  {
    hide Sum;
  }

  lemma SumSnoc(xs: seq<real>, x: real)
    ensures Sum(xs + [x]) == Sum(xs) + x
  {
    assert (xs + [x])[..|xs|] == xs;
  }

  class Sma {
    const period: nat
    var buffer: seq<real>
    var sum: real
    ghost var fed: seq<real>

    ghost predicate Valid()
      reads this
    {
      && period >= 1
      && buffer == LastN(fed, period)
      && sum == Sum(buffer)
    }

    constructor (period: nat)
      requires period >= 1
      ensures Valid() && this.period == period && fed == []
    {
      this.period := period;
      buffer, sum, fed := [], 0.0, [];
    }

    method Next(value: real) returns (r: Option<real>)
      requires Valid()
      modifies this
      ensures Valid() && fed == old(fed) + [value]
      ensures r == SmaOf(fed, period)
    {
      hide LastN, Sum, SmaOf, Mean;
      LastNStep(fed, value, period);
      SumSnoc(buffer, value);
      buffer := buffer + [value];
      sum := sum + value;
      fed := fed + [value];
      if |buffer| > period {
        SumTail(buffer);
        sum := sum - buffer[0];
        buffer := buffer[1..];
      }
      SmaOfWindow(fed, period);
      if |buffer| == period {
        r := Some(sum / (period as real));
      } else {
        r := None;
      }
    }

    method Reset()
      requires Valid()
      modifies this
      ensures Valid() && fed == []
    {
      buffer, sum, fed := [], 0.0, [];
    }
  }

  /** Every output of a stream of inputs, in order. */
  function SmaSeries(xs: seq<real>, period: nat): (ys: seq<real>)
    requires period >= 1
    ensures |ys| == if |xs| < period then 0 else |xs| - period + 1
  {
    if |xs| < period then []
    else SmaSeries(xs[..|xs| - 1], period) + [Mean(xs[|xs| - period..])]
  }

  lemma SmaSeriesStep(xs: seq<real>, x: real, period: nat)
    requires period >= 1
    ensures SmaSeries(xs + [x], period)
         == SmaSeries(xs, period) + if SmaOf(xs + [x], period).Some? then [SmaOf(xs + [x], period).value] else []
  {
    hide Mean, Sum;
    assert (xs + [x])[..|xs|] == xs;
  }

  datatype InsufficientData = InsufficientData(required: nat, actual: nat)

  /** Batch calculation: a fresh average fed with all closes, keeping the outputs. */
  method CalculateSma(period: nat, closes: seq<real>) returns (r: Result<seq<real>, InsufficientData>)
    requires period >= 1
    ensures r == if |closes| < period then Err(InsufficientData(period, |closes|))
                 else Ok(SmaSeries(closes, period))
  {
    hide *;
    if |closes| < period {
      return Err(InsufficientData(period, |closes|));
    }
    var sma := new Sma(period);
    var out: seq<real> := [];
    for i := 0 to |closes|
      invariant fresh(sma) && sma.Valid() && sma.period == period && sma.fed == closes[..i]
      invariant out == SmaSeries(closes[..i], period)
    {
      SmaSeriesStep(closes[..i], closes[i], period);
      assert closes[..i + 1] == closes[..i] + [closes[i]];
      var v := sma.Next(closes[i]);
      if v.Some? {
        out := out + [v.value];
      }
    }
    assert closes[..|closes|] == closes;
    r := Ok(out);
  }

  /** The i-th batch value is the mean of the window of closes that starts at i. */
  lemma {:induction false} SmaSeriesIsWindowMeans(xs: seq<real>, period: nat, i: nat)
    requires period >= 1 && i + period <= |xs|
    ensures SmaSeries(xs, period)[i] == Mean(xs[i..i + period])
  {
    hide SmaSeries, Mean, Sum;
    SmaSeriesSplits(xs, period);
    if i + period < |xs| {
      var front := xs[..|xs| - 1];
      SmaSeriesIsWindowMeans(front, period, i);
      assert front[i..i + period] == xs[i..i + period];
    } else {
      assert xs[i..] == xs[i..i + period];
    }
  }

  lemma SmaSeriesSplits(xs: seq<real>, period: nat)
    requires 1 <= period <= |xs|
    ensures SmaSeries(xs, period) == SmaSeries(xs[..|xs| - 1], period) + [Mean(xs[|xs| - period..])]
  {
    hide Mean;
  }

  lemma SmaSeriesWithin(xs: seq<real>, period: nat, lo: real, hi: real)
    requires period >= 1 && Within(xs, lo, hi)
    ensures Within(SmaSeries(xs, period), lo, hi)
  {
    hide SmaSeries, Mean, Sum;
    forall i | 0 <= i < |SmaSeries(xs, period)| ensures lo <= SmaSeries(xs, period)[i] <= hi {
      SmaSeriesIsWindowMeans(xs, period, i);
      MeanWithin(xs[i..i + period], lo, hi);
    }
  }

  // ---------------------------------------------------------------------------
  // Exponential moving average
  // ---------------------------------------------------------------------------

  function Weight(period: nat): real {
    2.0 / (period as real + 1.0)
  }

  /** Seeded with the mean of the first `period` values, then smoothed value by value. */
  function EmaOf(fed: seq<real>, period: nat): (r: Option<real>)
    requires period >= 1
    ensures r.Some? <==> |fed| >= period
  {
    if |fed| < period then None
    else if |fed| == period then Some(Mean(fed))
    else
      var prev := EmaOf(fed[..|fed| - 1], period).value;
      Some(Blend(fed[|fed| - 1], prev, Weight(period)))
  }

  function Blend(x: real, prev: real, w: real): real {
    x * w + prev * (1.0 - w)
  }

  lemma WeightRange(period: nat)
    requires period >= 1
    ensures 0.0 < Weight(period) <= 1.0
  {
    var d, w := period as real + 1.0, Weight(period);
    QuotientTimesDivisor(2.0, d);
    QuotientWithin(2.0, d, 0.0, 1.0);
  }

  lemma BlendWithin(x: real, prev: real, w: real, lo: real, hi: real)
    requires 0.0 <= w <= 1.0 && lo <= x <= hi && lo <= prev <= hi
    ensures lo <= Blend(x, prev, w) <= hi
  {
    ProductSign(x - lo, w);
    ProductSign(prev - lo, 1.0 - w);
    ProductSign(hi - x, w);
    ProductSign(hi - prev, 1.0 - w);
    ProductOfDifference(x, lo, w);
    ProductOfDifference(prev, lo, 1.0 - w);
    ProductOfDifference(hi, x, w);
    ProductOfDifference(hi, prev, 1.0 - w);
    WeightsSplit(lo, w);
    WeightsSplit(hi, w);
  }

  lemma WeightsSplit(a: real, w: real)
    ensures a * w + a * (1.0 - w) == a
  {
  }

  /** The average stays between the least and the greatest value fed so far. */
  lemma {:induction false} EmaWithin(fed: seq<real>, period: nat, lo: real, hi: real)
    requires 1 <= period <= |fed| && Within(fed, lo, hi)
    ensures lo <= EmaOf(fed, period).value <= hi
  {
    if |fed| == period {
      MeanWithin(fed, lo, hi);
    } else {
      EmaWithin(fed[..|fed| - 1], period, lo, hi);
      WeightRange(period);
      BlendWithin(fed[|fed| - 1], EmaOf(fed[..|fed| - 1], period).value, Weight(period), lo, hi);
    }
  }

  class Ema {
    const period: nat
    const k: real
    var current: Option<real>
    const sma: Sma
    var initialized: bool
    ghost var fed: seq<real>

    ghost predicate Valid()
      reads this, sma
    {
      && period >= 1 && k == Weight(period)
      && sma.Valid() && sma.period == period
      && (initialized <==> |fed| >= period)
      && current == EmaOf(fed, period)
      && (!initialized ==> sma.fed == fed)
    }

    constructor (period: nat)
      requires period >= 1
      ensures Valid() && fresh(sma) && this.period == period && fed == []
    {
      this.period := period;
      this.k := Weight(period);
      this.current := None;
      this.sma := new Sma(period);
      this.initialized := false;
      this.fed := [];
    }

    method Next(value: real) returns (r: Option<real>)
      requires Valid()
      modifies this, sma
      ensures Valid() && fed == old(fed) + [value]
      ensures r == EmaOf(fed, period)
    {
      hide EmaOf, SmaOf, Mean, Sum, Weight, Blend, Sma.Valid;
      ghost var before := fed;
      EmaStep(before, value, period);
      fed := fed + [value];
      if initialized {
        var ema := Blend(value, current.value, k);
        current := Some(ema);
        r := Some(ema);
      } else {
        var v := sma.Next(value);
        if v.Some? {
          current := v;
          initialized := true;
        }
        r := v;
      }
    }

    method Reset()
      requires Valid()
      modifies this, sma
      ensures Valid() && fed == []
    {
      current := None;
      initialized := false;
      sma.Reset();
      fed := [];
    }
  }

  /** How the average moves with one more value. */
  lemma EmaStep(before: seq<real>, x: real, period: nat)
    requires period >= 1
    ensures EmaOf(before + [x], period)
         == if |before| >= period then Some(Blend(x, EmaOf(before, period).value, Weight(period)))
            else SmaOf(before + [x], period)
  {
    hide Mean, Sum, Weight, Blend;
    var fed := before + [x];
    assert fed[..|before|] == before;
    if |fed| == period {
      assert fed[|fed| - period..] == fed;
    }
  }

  /** Every output of a stream of inputs, in order. */
  function EmaSeries(xs: seq<real>, period: nat): (ys: seq<real>)
    requires period >= 1
    ensures |ys| == if |xs| < period then 0 else |xs| - period + 1
  {
    if |xs| < period then []
    else EmaSeries(xs[..|xs| - 1], period) + [EmaOf(xs, period).value]
  }

  lemma EmaSeriesStep(xs: seq<real>, x: real, period: nat)
    requires period >= 1
    ensures EmaSeries(xs + [x], period)
         == EmaSeries(xs, period) + if EmaOf(xs + [x], period).Some? then [EmaOf(xs + [x], period).value] else []
  {
    hide EmaOf;
    assert (xs + [x])[..|xs|] == xs;
  }

  method CalculateEma(period: nat, closes: seq<real>) returns (r: Result<seq<real>, InsufficientData>)
    requires period >= 1
    ensures r == if |closes| < period then Err(InsufficientData(period, |closes|))
                 else Ok(EmaSeries(closes, period))
  {
    hide *;
    if |closes| < period {
      return Err(InsufficientData(period, |closes|));
    }
    var ema := new Ema(period);
    var out: seq<real> := [];
    for i := 0 to |closes|
      invariant fresh(ema) && fresh(ema.sma) && ema.Valid() && ema.period == period && ema.fed == closes[..i]
      invariant out == EmaSeries(closes[..i], period)
    {
      EmaSeriesStep(closes[..i], closes[i], period);
      assert closes[..i + 1] == closes[..i] + [closes[i]];
      var v := ema.Next(closes[i]);
      if v.Some? {
        out := out + [v.value];
      }
    }
    assert closes[..|closes|] == closes;
    r := Ok(out);
  }

  lemma {:induction false} EmaSeriesAt(xs: seq<real>, period: nat, i: nat)
    requires period >= 1 && i + period <= |xs|
    ensures EmaSeries(xs, period)[i] == EmaOf(xs[..i + period], period).value
  {
    hide EmaOf;
    if i + period == |xs| {
      assert xs[..i + period] == xs;
    } else {
      EmaSeriesAt(xs[..|xs| - 1], period, i);
      assert xs[..|xs| - 1][..i + period] == xs[..i + period];
    }
  }

  /** The sum of nothing is 0, that of one value the value, and sums add up. */
  lemma {:induction false} SumsAddUp(xs: seq<real>, ys: seq<real>, x: real)
    ensures Sum([]) == 0.0 && Sum([x]) == x && Sum(xs + ys) == Sum(xs) + Sum(ys)
  {
    SumOfFew(x);
    hide Sum;
    if ys == [] {
      assert xs + ys == xs;
    } else {
      var front, last := ys[..|ys| - 1], ys[|ys| - 1];
      SumsAddUp(xs, front, x);
      assert xs + ys == (xs + front) + [last] && ys == front + [last];
      SumSnoc(xs + front, last);
      SumSnoc(front, last);
    }
  }

  lemma SumOfFew(x: real)
    ensures Sum([]) == 0.0 && Sum([x]) == x
  {
    assert [x][..0] == [];
  }

  /** A mean, times the count, is the sum. */
  lemma MeanTimesCount(xs: seq<real>)
    requires xs != []
    ensures Mean(xs) * |xs| as real == Sum(xs)
  {
    hide Sum;
    QuotientTimesDivisor(Sum(xs), |xs| as real);
  }

  /** Each value moves the average by two parts in period + 1 of its distance. */
  lemma EmaMovesByWeight(before: seq<real>, x: real, period: nat)
    requires 1 <= period <= |before|
    ensures var (prev, next) := (EmaOf(before, period).value, EmaOf(before + [x], period).value);
            (period as real + 1.0) * (next - prev) == 2.0 * (x - prev)
  {
    hide EmaOf;
    EmaStep(before, x, period);
    var n, w, prev := period as real + 1.0, Weight(period), EmaOf(before, period).value;
    assert w * n == 2.0 by { QuotientTimesDivisor(2.0, n); }
    assert Blend(x, prev, w) - prev == w * (x - prev);
    assert n * (w * (x - prev)) == (w * n) * (x - prev);
  }

  /** The average starts as the mean of the first `period` values. */
  lemma EmaStartsAsMean(xs: seq<real>, period: nat)
    requires 1 <= period == |xs|
    ensures EmaOf(xs, period) == Some(Mean(xs))
  {
  }
}

/** The index regime: a breakout of the opening range, demoted when both directions appear. */
module Regime {
  import opened Wrappers

  datatype IndexCandle = IndexCandle(time: int, open: int, high: int, low: int, close: int)

  datatype Config = Config(orStart: int, orEnd: int, lookback: nat)

  datatype IndexRegime = Bullish | Bearish | Neutral | Unknown

  predicate InOpeningRange(c: IndexCandle, cfg: Config) {
    cfg.orStart <= c.time < cfg.orEnd
  }

  function OpeningBars(cs: seq<IndexCandle>, cfg: Config): seq<IndexCandle> {
    if cs == [] then []
    else OpeningBars(cs[..|cs| - 1], cfg) + if InOpeningRange(cs[|cs| - 1], cfg) then [cs[|cs| - 1]] else []
  }

  function PostBars(cs: seq<IndexCandle>, cfg: Config): seq<IndexCandle> {
    if cs == [] then []
    else PostBars(cs[..|cs| - 1], cfg) + if cs[|cs| - 1].time >= cfg.orEnd then [cs[|cs| - 1]] else []
  }

  /** Highest high and lowest low of some bars. */
  function RangeOf(bars: seq<IndexCandle>): Option<(int, int)> {
    if bars == [] then None
    else
      var last := bars[|bars| - 1];
      match RangeOf(bars[..|bars| - 1])
      case None => Some((last.high, last.low))
      case Some((hi, lo)) => Some((if last.high > hi then last.high else hi, if last.low < lo then last.low else lo))
  }

  method OrRange(candles: seq<IndexCandle>, cfg: Config) returns (r: Option<(int, int)>)
    ensures r == RangeOf(OpeningBars(candles, cfg))
  {
    var bars := OpeningBars(candles, cfg);
    if bars == [] {
      return None;
    }
    var hi, lo := bars[0].high, bars[0].low;
    assert bars[..1][..0] == [];
    for i := 1 to |bars|
      invariant RangeOf(bars[..i]) == Some((hi, lo))
    {
      assert bars[..i + 1][..i] == bars[..i];
      if bars[i].high > hi {
        hi := bars[i].high;
      }
      if bars[i].low < lo {
        lo := bars[i].low;
      }
    }
    assert bars[..|bars|] == bars;
    r := Some((hi, lo));
  }

  function ClassifySingle(c: IndexCandle, orHigh: int, orLow: int): IndexRegime {
    if c.close > orHigh && c.close > c.open then Bullish
    else if c.close < orLow && c.close < c.open then Bearish
    else Neutral
  }

  /** The last bars the verdict looks at. */
  function Recent(post: seq<IndexCandle>, lookback: nat): seq<IndexCandle> {
    var n := if lookback < 1 then 1 else lookback;
    if |post| <= n then post else post[|post| - n..]
  }

  predicate Shows(bars: seq<IndexCandle>, orHigh: int, orLow: int, r: IndexRegime) {
    exists i :: 0 <= i < |bars| && ClassifySingle(bars[i], orHigh, orLow) == r
  }

  function Verdict(orHigh: int, orLow: int, post: seq<IndexCandle>, lookback: nat): IndexRegime {
    if post == [] then Unknown
    else
      var recent := Recent(post, lookback);
      if Shows(recent, orHigh, orLow, Bullish) && Shows(recent, orHigh, orLow, Bearish) then Neutral
      else ClassifySingle(post[|post| - 1], orHigh, orLow)
  }

  function ClassifyRegime(candles: seq<IndexCandle>, cfg: Config): IndexRegime {
    match RangeOf(OpeningBars(candles, cfg))
    case None => Unknown
    case Some((hi, lo)) => Verdict(hi, lo, PostBars(candles, cfg), cfg.lookback)
  }

  lemma {:induction false} BarsOfConcat(a: seq<IndexCandle>, b: seq<IndexCandle>, cfg: Config)
    ensures OpeningBars(a + b, cfg) == OpeningBars(a, cfg) + OpeningBars(b, cfg)
    ensures PostBars(a + b, cfg) == PostBars(a, cfg) + PostBars(b, cfg)
  {
    if b == [] {
      assert a + b == a;
    } else {
      assert (a + b)[..|a + b| - 1] == a + b[..|b| - 1];
      BarsOfConcat(a, b[..|b| - 1], cfg);
    }
  }

  ghost predicate AllPost(bars: seq<IndexCandle>, cfg: Config) {
    forall i :: 0 <= i < |bars| ==> bars[i].time >= cfg.orEnd
  }

  lemma {:induction false} PostBarsOnly(bars: seq<IndexCandle>, cfg: Config)
    requires AllPost(bars, cfg)
    ensures OpeningBars(bars, cfg) == [] && PostBars(bars, cfg) == bars
  {
    hide OpeningBars, PostBars;
    if bars == [] {
      NoBars(cfg);
    } else {
      var front, last := bars[..|bars| - 1], bars[|bars| - 1];
      assert bars == front + [last];
      PostBarsOnly(front, cfg);
      OnePostBar(last, cfg);
      BarsOfConcat(front, [last], cfg);
    }
  }

  lemma NoBars(cfg: Config)
    ensures OpeningBars([], cfg) == [] && PostBars([], cfg) == []
  {
  }

  lemma OnePostBar(c: IndexCandle, cfg: Config)
    requires c.time >= cfg.orEnd
    ensures OpeningBars([c], cfg) == [] && PostBars([c], cfg) == [c]
  {
    assert [c][..0] == [];
  }

  function Window(lookback: nat): nat {
    if lookback < 1 then 1 else lookback
  }

  /** What a directional verdict says about the last bars. */
  lemma DirectionalVerdict(hi: int, lo: int, post: seq<IndexCandle>, lookback: nat, r: IndexRegime)
    requires r == Bullish || r == Bearish
    ensures Verdict(hi, lo, post, lookback) == r <==>
              && post != []
              && ClassifySingle(post[|post| - 1], hi, lo) == r
              && forall i :: 0 <= i < |post| && |post| - Window(lookback) <= i ==>
                   ClassifySingle(post[i], hi, lo) != if r == Bullish then Bearish else Bullish
  {
    hide Recent, Shows, ClassifySingle, Window;
    ShownInWindow(hi, lo, post, lookback, Bullish);
    ShownInWindow(hi, lo, post, lookback, Bearish);
    assert post != [] ==> |post| - Window(lookback) <= |post| - 1 by { WindowIsPositive(lookback); }
  }

  lemma WindowIsPositive(lookback: nat)
    ensures Window(lookback) >= 1
  {
  }

  /** What the recent bars show is what the bars of the window are. */
  lemma ShownInWindow(hi: int, lo: int, post: seq<IndexCandle>, lookback: nat, r: IndexRegime)
    ensures Shows(Recent(post, lookback), hi, lo, r) <==>
              exists i :: 0 <= i < |post| && |post| - Window(lookback) <= i && ClassifySingle(post[i], hi, lo) == r
  {
    hide ClassifySingle;
    var recent := Recent(post, lookback);
    var skipped := |post| - |recent|;
    if Shows(recent, hi, lo, r) {
      var i :| 0 <= i < |recent| && ClassifySingle(recent[i], hi, lo) == r;
      assert post[i + skipped] == recent[i];
    }
    if i :| 0 <= i < |post| && |post| - Window(lookback) <= i && ClassifySingle(post[i], hi, lo) == r {
      assert recent[i - skipped] == post[i];
    }
  }

  /**
   As bars after the opening range are appended one at a time, a bullish and a bearish verdict
   are at least `lookback` bars (and at least one) apart.
   */
  lemma OppositeVerdictsAreSpaced(candles: seq<IndexCandle>, more: seq<IndexCandle>, cfg: Config, r: IndexRegime)
    requires AllPost(more, cfg)
    requires r == Bullish || r == Bearish
    requires ClassifyRegime(candles, cfg) == r
    requires ClassifyRegime(candles + more, cfg) == if r == Bullish then Bearish else Bullish
    ensures |more| >= Window(cfg.lookback)
  {
    BarsOfConcat(candles, more, cfg);
    PostBarsOnly(more, cfg);
    assert OpeningBars(candles, cfg) + [] == OpeningBars(candles, cfg);
    var (hi, lo) := RangeOf(OpeningBars(candles, cfg)).value;
    var early, late := PostBars(candles, cfg), PostBars(candles + more, cfg);
    DirectionalVerdict(hi, lo, early, cfg.lookback, r);
    DirectionalVerdict(hi, lo, late, cfg.lookback, if r == Bullish then Bearish else Bullish);
    assert late[|early| - 1] == early[|early| - 1];
  }

  const UP := IndexCandle(1, 21, 30, 21, 30)
  const FLAT := IndexCandle(1, 15, 15, 15, 15)
  const DOWN := IndexCandle(1, 9, 9, 1, 1)

  lemma UpThenDown(n: nat, more: seq<IndexCandle>)
    requires n >= 1 && |more| == n && more[n - 1] == DOWN && forall i :: 0 <= i < n - 1 ==> more[i] == FLAT
    ensures Verdict(20, 10, [UP], n) == Bullish
    ensures Verdict(20, 10, [UP] + more, n) == Bearish
  {
    hide Verdict;
    DirectionalVerdict(20, 10, [UP], n, Bullish);
    DirectionalVerdict(20, 10, [UP] + more, n, Bearish);
  }

  /** After one opening bar, the verdict is that of the later bars against its range. */
  lemma RegimeAfterOpening(opening: IndexCandle, post: seq<IndexCandle>, cfg: Config)
    requires InOpeningRange(opening, cfg) && AllPost(post, cfg)
    ensures ClassifyRegime([opening] + post, cfg) == Verdict(opening.high, opening.low, post, cfg.lookback)
  {
    hide OpeningBars, PostBars, RangeOf, Verdict;
    OneOpeningBar(opening, cfg);
    BarsOfConcat([opening], post, cfg);
    PostBarsOnly(post, cfg);
    assert [opening] + [] == [opening] && [] + post == post;
  }

  /** The spacing is attained: with a window of n bars, opposite verdicts n bars apart occur. */
  lemma SpacingIsAttained(n: nat) returns (candles: seq<IndexCandle>, more: seq<IndexCandle>, cfg: Config)
    requires n >= 1
    ensures cfg.lookback == n && |more| == n && AllPost(more, cfg)
    ensures ClassifyRegime(candles, cfg) == Bullish && ClassifyRegime(candles + more, cfg) == Bearish
  {
    hide ClassifyRegime, Verdict;
    cfg := Config(0, 1, n);
    var opening := IndexCandle(0, 10, 20, 10, 15);
    candles := [opening] + [UP];
    more := seq(n - 1, i => FLAT) + [DOWN];
    UpThenDown(n, more);
    RegimeAfterOpening(opening, [UP], cfg);
    RegimeAfterOpening(opening, [UP] + more, cfg);
    assert candles + more == [opening] + ([UP] + more);
  }

  lemma OneOpeningBar(c: IndexCandle, cfg: Config)
    requires InOpeningRange(c, cfg)
    ensures OpeningBars([c], cfg) == [c] && PostBars([c], cfg) == [] && RangeOf([c]) == Some((c.high, c.low))
  {
    assert [c][..0] == [];
  }

  /** Bars before the opening range, and all but the last bars after it, have no say. */
  lemma VerdictDependsOnRecentBars(v: seq<IndexCandle>, w: seq<IndexCandle>, cfg: Config)
    requires OpeningBars(v, cfg) == OpeningBars(w, cfg)
    requires Recent(PostBars(v, cfg), cfg.lookback) == Recent(PostBars(w, cfg), cfg.lookback)
    ensures ClassifyRegime(v, cfg) == ClassifyRegime(w, cfg)
  {
    hide OpeningBars, PostBars, RangeOf, ClassifySingle;
    LastOfRecent(PostBars(v, cfg), cfg.lookback);
    LastOfRecent(PostBars(w, cfg), cfg.lookback);
  }

  lemma LastOfRecent(post: seq<IndexCandle>, lookback: nat)
    ensures var r := Recent(post, lookback);
            (post == [] <==> r == []) && (post != [] ==> r[|r| - 1] == post[|post| - 1])
  {
  }

  /** The opening bars are those within the range's times, the later bars those from its end on, each in order. */
  lemma {:induction false} BarsAreFilters(cs: seq<IndexCandle>, c: IndexCandle, cfg: Config)
    ensures c in OpeningBars(cs, cfg) <==> c in cs && cfg.orStart <= c.time && c.time < cfg.orEnd
    ensures c in PostBars(cs, cfg) <==> c in cs && c.time >= cfg.orEnd
    ensures OpeningBars(cs + [c], cfg) == OpeningBars(cs, cfg) + if cfg.orStart <= c.time && c.time < cfg.orEnd then [c] else []
    ensures PostBars(cs + [c], cfg) == PostBars(cs, cfg) + if c.time >= cfg.orEnd then [c] else []
  {
    assert (cs + [c])[..|cs|] == cs;
    if cs != [] {
      var front := cs[..|cs| - 1];
      BarsAreFilters(front, c, cfg);
      assert cs == front + [cs[|cs| - 1]];
    }
  }

  /** The range of some bars is their highest high and lowest low. */
  lemma {:induction false} RangeIsExtreme(bars: seq<IndexCandle>)
    ensures RangeOf(bars) == None <==> bars == []
    ensures bars != [] ==>
              var (hi, lo) := RangeOf(bars).value;
              && (exists i :: 0 <= i < |bars| && bars[i].high == hi)
              && (exists i :: 0 <= i < |bars| && bars[i].low == lo)
              && (forall i :: 0 <= i < |bars| ==> lo <= bars[i].low && bars[i].high <= hi)
  {
    if bars != [] {
      var front, last := bars[..|bars| - 1], bars[|bars| - 1];
      RangeIsExtreme(front);
      assert last == bars[|bars| - 1];
      if front != [] {
        var (hi, lo) := RangeOf(front).value;
        var i :| 0 <= i < |front| && front[i].high == hi;
        var j :| 0 <= j < |front| && front[j].low == lo;
        assert bars[i].high == hi && bars[j].low == lo;
        assert forall k :: 0 <= k < |front| ==> bars[k] == front[k];
      }
    }
  }

  /** Bullish: above the range and rising. */
  predicate IsUp(c: IndexCandle, hi: int) { c.close > hi && c.close > c.open }

  /** Bearish: below the range and falling. */
  predicate IsDown(c: IndexCandle, lo: int) { c.close < lo && c.close < c.open }

  /**
   The verdict in terms of the bars: bullish when the last bar rises above the range and no bar of
   the window falls below it, bearish the other way round, unknown without bars on either side.
   */
  lemma VerdictSpelledOut(candles: seq<IndexCandle>, cfg: Config)
    ensures var (opening, post) := (OpeningBars(candles, cfg), PostBars(candles, cfg));
            var verdict := ClassifyRegime(candles, cfg);
            && (verdict == Unknown <==> opening == [] || post == [])
            && (opening != [] && post != [] && RangeOf(opening).value.1 <= RangeOf(opening).value.0 ==>
                  var (hi, lo) := RangeOf(opening).value;
                  && (verdict == Bullish <==>
                        && IsUp(post[|post| - 1], hi)
                        && forall i :: 0 <= i < |post| && |post| - Window(cfg.lookback) <= i ==> !IsDown(post[i], lo))
                  && (verdict == Bearish <==>
                        && IsDown(post[|post| - 1], lo)
                        && forall i :: 0 <= i < |post| && |post| - Window(cfg.lookback) <= i ==> !IsUp(post[i], hi)))
  {
    hide OpeningBars, PostBars, Shows, Recent, Window;
    var (opening, post) := (OpeningBars(candles, cfg), PostBars(candles, cfg));
    RangeIsExtreme(opening);
    hide RangeOf;
    if opening != [] && post != [] {
      var (hi, lo) := RangeOf(opening).value;
      DirectionalVerdict(hi, lo, post, cfg.lookback, Bullish);
      DirectionalVerdict(hi, lo, post, cfg.lookback, Bearish);
      forall i | 0 <= i < |post| && lo <= hi
        ensures ClassifySingle(post[i], hi, lo) == Bullish <==> IsUp(post[i], hi)
        ensures ClassifySingle(post[i], hi, lo) == Bearish <==> IsDown(post[i], lo)
      {
      }
    }
  }
}

/** Minute candles and their aggregation into N-minute candles by scanning runs. */
module Candles {
  import opened Arithmetic

  /** Seconds since midnight. */
  type Time = t: int | 0 <= t < 86400

  const MARKET_OPEN: Time := 32400

  datatype Candle = Candle(
    date: int, time: Time, open: int, high: int, low: int, close: int, volume: int)

  /** Whole minutes since the market opened; anything earlier counts as minute 0. */
  function MinutesFromOpen(t: Time): nat {
    if t < MARKET_OPEN then 0 else (t - MARKET_OPEN) / 60
  }

  /** Day and slot number of a candle. */
  function SlotKey(c: Candle, interval: nat): (int, nat)
    requires interval >= 1
  {
    (c.date, MinutesFromOpen(c.time) / interval)
  }

  // ---------------------------------------------------------------------------
  // The specification: one bar per maximal run of candles of the same slot
  // ---------------------------------------------------------------------------

  /** The maximal runs of consecutive candles that share a slot. */
  function Runs(cs: seq<Candle>, interval: nat): (rs: seq<seq<Candle>>)
    requires interval >= 1
    ensures forall k :: 0 <= k < |rs| ==> rs[k] != []
    ensures cs == [] <==> rs == []
    ensures cs != [] ==> rs[0][0] == cs[0]
  {
    if cs == [] then [] else PrependToRuns(cs[0], Runs(cs[1..], interval), interval)
  }

  /** A candle in front of some runs: it joins the first run when the slots agree. */
  function PrependToRuns(c: Candle, rs: seq<seq<Candle>>, interval: nat): (r: seq<seq<Candle>>)
    requires interval >= 1
    requires forall k :: 0 <= k < |rs| ==> rs[k] != []
    ensures r != [] && r[0] != [] && r[0][0] == c
    ensures forall k :: 0 <= k < |r| ==> r[k] != []
  {
    if rs != [] && SlotKey(rs[0][0], interval) == SlotKey(c, interval)
    then [[c] + rs[0]] + rs[1..]
    else [[c]] + rs
  }

  /** A candle behind some runs: it joins the last run when the slots agree. */
  function AppendToRuns(rs: seq<seq<Candle>>, c: Candle, interval: nat): (r: seq<seq<Candle>>)
    requires interval >= 1
    requires forall k :: 0 <= k < |rs| ==> rs[k] != []
    ensures r != [] && forall k :: 0 <= k < |r| ==> r[k] != []
  {
    if rs != [] && SlotKey(rs[|rs| - 1][0], interval) == SlotKey(c, interval)
    then rs[..|rs| - 1] + [rs[|rs| - 1] + [c]]
    else rs + [[c]]
  }

  function HighOf(r: seq<Candle>): int
    requires r != []
  {
    if |r| == 1 then r[0].high else Max(r[0].high, HighOf(r[1..]))
  }

  function LowOf(r: seq<Candle>): int
    requires r != []
  {
    if |r| == 1 then r[0].low else Min(r[0].low, LowOf(r[1..]))
  }

  function VolumeOf(r: seq<Candle>): int {
    if r == [] then 0 else r[0].volume + VolumeOf(r[1..])
  }

  /** First open, highest high, lowest low, last close, total volume, labelled by the first candle. */
  function Bar(r: seq<Candle>): Candle
    requires r != []
  {
    Candle(r[0].date, r[0].time, r[0].open, HighOf(r), LowOf(r), r[|r| - 1].close, VolumeOf(r))
  }

  /** The bar of a run: highest high and lowest low among its candles, first open, last close, all volume. */
  lemma BarMeans(r: seq<Candle>)
    requires r != []
    ensures var b := Bar(r);
            && b.date == r[0].date && b.time == r[0].time && b.open == r[0].open && b.close == r[|r| - 1].close
            && (exists i :: 0 <= i < |r| && b.high == r[i].high) && (forall i :: 0 <= i < |r| ==> r[i].high <= b.high)
            && (exists i :: 0 <= i < |r| && b.low == r[i].low) && (forall i :: 0 <= i < |r| ==> b.low <= r[i].low)
  {
    var h := HighIsHighest(r);
    var l := LowIsLowest(r);
  }

  lemma {:induction false} HighIsHighest(r: seq<Candle>) returns (i: nat)
    requires r != []
    ensures i < |r| && HighOf(r) == r[i].high
    ensures forall k :: 0 <= k < |r| ==> r[k].high <= HighOf(r)
  {
    i := 0;
    if |r| > 1 {
      var j := HighIsHighest(r[1..]);
      i := if HighOf(r) == r[0].high then 0 else j + 1;
      assert forall k :: 1 <= k < |r| ==> r[k] == r[1..][k - 1];
    }
  }

  lemma {:induction false} LowIsLowest(r: seq<Candle>) returns (i: nat)
    requires r != []
    ensures i < |r| && LowOf(r) == r[i].low
    ensures forall k :: 0 <= k < |r| ==> LowOf(r) <= r[k].low
  {
    i := 0;
    if |r| > 1 {
      var j := LowIsLowest(r[1..]);
      i := if LowOf(r) == r[0].low then 0 else j + 1;
      assert forall k :: 1 <= k < |r| ==> r[k] == r[1..][k - 1];
    }
  }

  /** The volume is additive and that of one candle is its own. */
  lemma VolumeMeans(r: seq<Candle>, s: seq<Candle>, c: Candle)
    requires r != []
    ensures VolumeOf([]) == 0 && VolumeOf([c]) == c.volume && VolumeOf(r + s) == VolumeOf(r) + VolumeOf(s)
    ensures Bar(r).volume == VolumeOf(r)
  {
    assert [c][1..] == [];
    VolumeSplits(r, s);
  }

  /** Slot number k of a day spans the minutes from k to k + 1 intervals after 09:00; earlier candles are in slot 0. */
  lemma SlotSpans(c: Candle, interval: nat, k: nat)
    requires interval >= 1
    ensures SlotKey(c, interval).0 == c.date
    ensures c.time < 9 * 3600 ==> SlotKey(c, interval).1 == 0
    ensures c.time >= 9 * 3600 ==>
              (SlotKey(c, interval).1 == k <==>
                 9 * 3600 + interval * k * 60 <= c.time < 9 * 3600 + interval * (k + 1) * 60)
  {
    var m := MinutesFromOpen(c.time);
    DivMod(m, interval);
    if c.time >= 9 * 3600 {
      var q := m / interval;
      MulMono(interval, k + 1, q);
      MulMono(interval, q + 1, k);
      assert interval * (k + 1) == interval * k + interval;
    } else {
      DivUnique(0, interval, 0, 0);
    }
  }

  function Bars(rs: seq<seq<Candle>>): (bs: seq<Candle>)
    requires forall k :: 0 <= k < |rs| ==> rs[k] != []
    ensures |bs| == |rs|
    ensures forall k :: 0 <= k < |rs| ==> bs[k] == Bar(rs[k])
  {
    if rs == [] then [] else [Bar(rs[0])] + Bars(rs[1..])
  }

  function Aggregated(cs: seq<Candle>, interval: nat): seq<Candle> {
    if cs == [] || interval <= 1 then cs else Bars(Runs(cs, interval))
  }

  // ---------------------------------------------------------------------------
  // The same aggregation as a right fold over single candles
  // ---------------------------------------------------------------------------

  function Merge(a: Candle, b: Candle): Candle {
    Candle(a.date, a.time, a.open, Max(a.high, b.high), Min(a.low, b.low), b.close, a.volume + b.volume)
  }

  /** Puts a candle in front of bars: into the first bar when the slots agree. */
  function Push(c: Candle, bars: seq<Candle>, interval: nat): seq<Candle>
    requires interval >= 1
  {
    if bars != [] && SlotKey(bars[0], interval) == SlotKey(c, interval)
    then [Merge(c, bars[0])] + bars[1..]
    else [c] + bars
  }

  function Fold(cs: seq<Candle>, interval: nat): seq<Candle>
    requires interval >= 1
  {
    if cs == [] then [] else Push(cs[0], Fold(cs[1..], interval), interval)
  }

  lemma SingletonBar(c: Candle)
    ensures Bar([c]) == c
  {
    var r := [c];
    assert r[1..] == [];
    assert VolumeOf(r) == c.volume + VolumeOf([]);
  }

  lemma {:induction false} FoldIsBarsOfRuns(cs: seq<Candle>, interval: nat)
    requires interval >= 1
    ensures Fold(cs, interval) == Bars(Runs(cs, interval))
  {
    if cs != [] {
      var rest := Runs(cs[1..], interval);
      FoldIsBarsOfRuns(cs[1..], interval);
      if rest != [] && SlotKey(rest[0][0], interval) == SlotKey(cs[0], interval) {
        var r := [cs[0]] + rest[0];
        assert r[1..] == rest[0];
        assert Runs(cs, interval) == [r] + rest[1..];
        assert Bar(r) == Merge(cs[0], Bar(rest[0]));
        assert Fold(cs, interval) == [Merge(cs[0], Bar(rest[0]))] + Bars(rest)[1..];
      } else {
        assert Runs(cs, interval) == [[cs[0]]] + rest;
        assert ([[cs[0]]] + rest)[1..] == rest;
        SingletonBar(cs[0]);
      }
    }
  }

  ghost predicate OneSlot(r: seq<Candle>, interval: nat)
    requires interval >= 1
  {
    r != [] && forall i :: 0 <= i < |r| ==> SlotKey(r[i], interval) == SlotKey(r[0], interval)
  }

  /** Every run stays within one slot. */
  ghost predicate OneSlotEach(rs: seq<seq<Candle>>, interval: nat)
    requires interval >= 1
  {
    forall k :: 0 <= k < |rs| ==> OneSlot(rs[k], interval)
  }

  /** Neighbouring runs are in different slots. */
  ghost predicate NeighboursDiffer(rs: seq<seq<Candle>>, interval: nat)
    requires interval >= 1 && forall k :: 0 <= k < |rs| ==> rs[k] != []
  {
    forall k :: 0 <= k < |rs| - 1 ==> SlotKey(rs[k][0], interval) != SlotKey(rs[k + 1][0], interval)
  }

  function Concat(rs: seq<seq<Candle>>): seq<Candle> {
    if rs == [] then [] else rs[0] + Concat(rs[1..])
  }

  /** Runs cut the list into consecutive pieces, each within one slot, neighbours in different slots. */
  lemma {:induction false} RunsAreMaximalPieces(cs: seq<Candle>, interval: nat)
    requires interval >= 1
    ensures Concat(Runs(cs, interval)) == cs
    ensures OneSlotEach(Runs(cs, interval), interval) && NeighboursDiffer(Runs(cs, interval), interval)
  {
    if cs != [] {
      RunsAreMaximalPieces(cs[1..], interval);
      PrependConcat(cs[0], Runs(cs[1..], interval), interval);
      PrependKeepsPieces(cs[0], Runs(cs[1..], interval), interval);
      assert cs == [cs[0]] + cs[1..];
    }
  }

  lemma ConcatCons(r: seq<Candle>, rs: seq<seq<Candle>>)
    ensures Concat([r] + rs) == r + Concat(rs)
  {
    assert ([r] + rs)[1..] == rs;
  }

  lemma JoinFirst(c: Candle, r: seq<Candle>, rs: seq<seq<Candle>>)
    ensures Concat([[c] + r] + rs) == [c] + Concat([r] + rs)
  {
    hide Concat;
    ConcatCons([c] + r, rs);
    ConcatCons(r, rs);
    assert ([c] + r) + Concat(rs) == [c] + (r + Concat(rs));
  }

  lemma PrependConcat(c: Candle, rest: seq<seq<Candle>>, interval: nat)
    requires interval >= 1 && forall k :: 0 <= k < |rest| ==> rest[k] != []
    ensures Concat(PrependToRuns(c, rest, interval)) == [c] + Concat(rest)
  {
    hide *;
    if StartsRun(c, rest, interval) {
      OpensRun(c, rest, interval);
      ConcatCons([c], rest);
    } else {
      JoinsRun(c, rest, interval);
      JoinedConcat(c, rest);
    }
  }

  /** The candle does not join the first run. */
  predicate StartsRun(c: Candle, rest: seq<seq<Candle>>, interval: nat)
    requires interval >= 1 && forall k :: 0 <= k < |rest| ==> rest[k] != []
  {
    rest == [] || SlotKey(rest[0][0], interval) != SlotKey(c, interval)
  }

  lemma OpensRun(c: Candle, rest: seq<seq<Candle>>, interval: nat)
    requires interval >= 1 && forall k :: 0 <= k < |rest| ==> rest[k] != []
    requires StartsRun(c, rest, interval)
    ensures PrependToRuns(c, rest, interval) == [[c]] + rest
  {
    hide SlotKey;
  }

  lemma JoinsRun(c: Candle, rest: seq<seq<Candle>>, interval: nat)
    requires interval >= 1 && forall k :: 0 <= k < |rest| ==> rest[k] != []
    requires !StartsRun(c, rest, interval)
    ensures rest != [] && PrependToRuns(c, rest, interval) == [[c] + rest[0]] + rest[1..]
  {
    hide SlotKey;
  }

  lemma JoinedConcat(c: Candle, rest: seq<seq<Candle>>)
    requires rest != []
    ensures Concat([[c] + rest[0]] + rest[1..]) == [c] + Concat(rest)
  {
    hide Concat;
    JoinFirst(c, rest[0], rest[1..]);
    assert [rest[0]] + rest[1..] == rest;
  }

  lemma OneSlotCons(c: Candle, r: seq<Candle>, interval: nat)
    requires interval >= 1 && OneSlot(r, interval) && SlotKey(r[0], interval) == SlotKey(c, interval)
    ensures OneSlot([c] + r, interval)
  {
    hide SlotKey;
  }

  lemma PrependKeepsPieces(c: Candle, rest: seq<seq<Candle>>, interval: nat)
    requires interval >= 1 && forall k :: 0 <= k < |rest| ==> rest[k] != []
    requires OneSlotEach(rest, interval) && NeighboursDiffer(rest, interval)
    ensures var rs := PrependToRuns(c, rest, interval);
            OneSlotEach(rs, interval) && NeighboursDiffer(rs, interval)
  {
    hide SlotKey, OneSlot;
    if rest != [] && SlotKey(rest[0][0], interval) == SlotKey(c, interval) {
      OneSlotCons(c, rest[0], interval);
    } else {
      SingleSlot(c, interval);
    }
  }

  lemma SingleSlot(c: Candle, interval: nat)
    requires interval >= 1
    ensures OneSlot([c], interval)
  {
  }

  /** Runs may be built from either end. */
  lemma {:induction false} RunsSnoc(cs: seq<Candle>, c: Candle, interval: nat)
    requires interval >= 1
    ensures Runs(cs + [c], interval) == AppendToRuns(Runs(cs, interval), c, interval)
  {
    if cs == [] {
      assert cs + [c] == [c];
      assert [c][1..] == [];
    } else {
      assert (cs + [c])[1..] == cs[1..] + [c];
      RunsSnoc(cs[1..], c, interval);
      PrependAppendCommute(cs[0], Runs(cs[1..], interval), c, interval);
    }
  }

  lemma PrependAppendCommute(a: Candle, rs: seq<seq<Candle>>, c: Candle, interval: nat)
    requires interval >= 1
    requires forall k :: 0 <= k < |rs| ==> rs[k] != []
    ensures PrependToRuns(a, AppendToRuns(rs, c, interval), interval)
         == AppendToRuns(PrependToRuns(a, rs, interval), c, interval)
  {
    if rs == [] {
      assert [a] + [c] == [a, c];
      assert [[c]][1..] == [];
    } else if |rs| == 1 {
      assert [a] + (rs[0] + [c]) == ([a] + rs[0]) + [c];
      if SlotKey(rs[0][0], interval) == SlotKey(a, interval) {
        assert PrependToRuns(a, rs, interval) == [[a] + rs[0]];
        if SlotKey(rs[0][0], interval) == SlotKey(c, interval) {
          assert AppendToRuns(rs, c, interval) == [rs[0] + [c]];
        } else {
          assert AppendToRuns(rs, c, interval) == [rs[0]] + [[c]];
        }
      }
    } else {
      var last := rs[|rs| - 1];
      var ap := AppendToRuns(rs, c, interval);
      var pre := PrependToRuns(a, rs, interval);
      assert ap[0] == rs[0];
      assert pre[|pre| - 1] == last;
      if SlotKey(rs[0][0], interval) == SlotKey(a, interval) {
        assert PrependToRuns(a, ap, interval) == [[a] + rs[0]] + ap[1..];
        assert pre == [[a] + rs[0]] + rs[1..];
        if SlotKey(last[0], interval) == SlotKey(c, interval) {
          assert ap[1..] == rs[1..][..|rs| - 2] + [last + [c]];
        } else {
          assert ap[1..] == rs[1..] + [[c]];
        }
      }
    }
  }

  lemma {:induction false} BarSnoc(r: seq<Candle>, c: Candle)
    requires r != []
    ensures Bar(r + [c]) == Merge(Bar(r), c)
  {
    var longer := r + [c];
    assert longer[1..] == r[1..] + [c];
    if |r| == 1 {
      assert longer[1..] == [c];
      SingletonBar(c);
      SingletonBar(r[0]);
      assert r == [r[0]];
    } else {
      BarSnoc(r[1..], c);
    }
  }

  /** A candle read last joins the last bar of its slot or opens a bar of its own. */
  lemma FoldSnoc(cs: seq<Candle>, c: Candle, interval: nat)
    requires interval >= 1
    ensures var bars := Fold(cs, interval);
            Fold(cs + [c], interval)
            == if bars != [] && SlotKey(bars[|bars| - 1], interval) == SlotKey(c, interval)
               then bars[..|bars| - 1] + [Merge(bars[|bars| - 1], c)]
               else bars + [c]
  {
    hide Fold, Runs, Merge, HighOf, LowOf, VolumeOf;
    var rs := Runs(cs, interval);
    FoldIsBarsOfRuns(cs, interval);
    FoldIsBarsOfRuns(cs + [c], interval);
    RunsSnoc(cs, c, interval);
    SingletonBar(c);
    if rs != [] {
      BarSnoc(rs[|rs| - 1], c);
    }
  }

  // ---------------------------------------------------------------------------
  // The scanning implementation
  // ---------------------------------------------------------------------------

  lemma PushMerges(a: Candle, b: Candle, bars: seq<Candle>, interval: nat)
    requires interval >= 1
    requires SlotKey(a, interval) == SlotKey(b, interval)
    ensures SlotKey(Merge(a, b), interval) == SlotKey(a, interval)
    ensures Push(a, Push(b, bars, interval), interval) == Push(Merge(a, b), bars, interval)
  {
    if bars != [] && SlotKey(bars[0], interval) == SlotKey(b, interval) {
      assert Merge(a, Merge(b, bars[0])) == Merge(Merge(a, b), bars[0]);
      assert ([Merge(b, bars[0])] + bars[1..])[1..] == bars[1..];
    } else {
      assert ([b] + bars)[1..] == bars;
    }
  }

  lemma FoldNothing(interval: nat)
    requires interval >= 1
    ensures Fold([], interval) == []
  {
  }

  lemma FoldCons(cs: seq<Candle>, interval: nat)
    requires interval >= 1 && cs != []
    ensures Fold(cs, interval) == Push(cs[0], Fold(cs[1..], interval), interval)
  {
  }

  lemma FoldHead(cs: seq<Candle>, interval: nat)
    requires interval >= 1 && cs != []
    ensures Fold(cs, interval) != []
    ensures SlotKey(Fold(cs, interval)[0], interval) == SlotKey(cs[0], interval)
  {
  }

  /** The two nested scans of the source: an outer one over runs, an inner one along a run. */
  method Aggregate(candles: seq<Candle>, interval: nat) returns (result: seq<Candle>)
    ensures result == Aggregated(candles, interval)
  {
    hide SlotKey, Fold, Runs;
    if candles == [] || interval <= 1 {
      return candles;
    }
    result := [];
    var i := 0;
    assert candles[0..] == candles;
    while i < |candles|
      invariant 0 <= i <= |candles|
      invariant result + Fold(candles[i..], interval) == Fold(candles, interval)
    {
      FoldCons(candles[i..], interval);
      var key := SlotKey(candles[i], interval);
      var high, low, volume := candles[i].high, candles[i].low, candles[i].volume;
      var open, date, time := candles[i].open, candles[i].date, candles[i].time;
      var close := candles[i].close;
      var j := i + 1;
      ghost var seen := candles[i];
      assert candles[i..][1..] == candles[j..];
      while j < |candles| && SlotKey(candles[j], interval) == key
        invariant i < j <= |candles|
        invariant seen == Candle(date, time, open, high, low, close, volume)
        invariant SlotKey(seen, interval) == key
        invariant Fold(candles[i..], interval) == Push(seen, Fold(candles[j..], interval), interval)
      {
        assert candles[j..][1..] == candles[j + 1..];
        FoldCons(candles[j..], interval);
        PushMerges(seen, candles[j], Fold(candles[j + 1..], interval), interval);
        high := Max(high, candles[j].high);
        low := Min(low, candles[j].low);
        volume := volume + candles[j].volume;
        close := candles[j].close;
        seen := Merge(seen, candles[j]);
        j := j + 1;
      }
      if j < |candles| {
        FoldHead(candles[j..], interval);
      } else {
        FoldNothing(interval);
      }
      result := result + [Candle(date, time, open, high, low, close, volume)];
      i := j;
    }
    assert candles[i..] == [];
    FoldNothing(interval);
    assert result + [] == result;
    FoldIsBarsOfRuns(candles, interval);
  }

  // ---------------------------------------------------------------------------
  // The nesting law
  // ---------------------------------------------------------------------------

  /** Equal fine slots are equal coarse slots. */
  lemma CoarserKey(c: Candle, d: Candle, a: nat, b: nat)
    requires a >= 1 && b >= 1 && SlotKey(c, a) == SlotKey(d, a)
    ensures a * b >= 1 && SlotKey(c, a * b) == SlotKey(d, a * b)
  {
    DivDiv(MinutesFromOpen(c.time), a, b);
    DivDiv(MinutesFromOpen(d.time), a, b);
  }

  /** Slots of `coarse` minutes are unions of slots of `fine` minutes. */
  ghost predicate Coarser(fine: nat, coarse: nat) {
    && fine >= 1 && coarse >= 1
    && forall c: Candle, d: Candle :: SlotKey(c, fine) == SlotKey(d, fine) ==> SlotKey(c, coarse) == SlotKey(d, coarse)
  }

  lemma MultiplesAreCoarser(a: nat, b: nat)
    requires a >= 1 && b >= 1
    ensures a * b >= a && Coarser(a, a * b)
  {
    MulMono(a, 1, b);
    forall c: Candle, d: Candle | SlotKey(c, a) == SlotKey(d, a)
      ensures SlotKey(c, a * b) == SlotKey(d, a * b)
    {
      CoarserKey(c, d, a, b);
    }
  }

  /** A bar in front of folded candles: pushing its first candle again does the same as folding. */
  lemma PushIntoFolded(c: Candle, fine: seq<Candle>, y: seq<Candle>, a: nat, n: nat)
    requires Coarser(a, n)
    ensures Fold(Push(c, fine, a) + y, n) == Push(c, Fold(fine + y, n), n)
  {
    hide SlotKey, Fold, Merge;
    if fine != [] && SlotKey(fine[0], a) == SlotKey(c, a) {
      var rest := fine[1..] + y;
      assert Push(c, fine, a) + y == [Merge(c, fine[0])] + rest;
      assert fine + y == [fine[0]] + rest;
      FoldPrepend(Merge(c, fine[0]), rest, n);
      FoldPrepend(fine[0], rest, n);
      PushMerges(c, fine[0], Fold(rest, n), n);
    } else {
      assert Push(c, fine, a) + y == [c] + (fine + y);
      FoldPrepend(c, fine + y, n);
    }
  }

  lemma FoldPrepend(c: Candle, cs: seq<Candle>, interval: nat)
    requires interval >= 1
    ensures Fold([c] + cs, interval) == Push(c, Fold(cs, interval), interval)
  {
    assert ([c] + cs)[1..] == cs;
  }

  lemma {:induction false} FoldOfFoldedPrefix(x: seq<Candle>, y: seq<Candle>, a: nat, n: nat)
    requires Coarser(a, n)
    ensures Fold(Fold(x, a) + y, n) == Fold(x + y, n)
  {
    hide Push;
    if x == [] {
      assert Fold(x, a) + y == y && x + y == y;
    } else {
      FoldOfFoldedPrefix(x[1..], y, a, n);
      PushIntoFolded(x[0], Fold(x[1..], a), y, a, n);
      FoldPrepend(x[0], x[1..] + y, n);
      assert x + y == [x[0]] + (x[1..] + y);
    }
  }

  lemma FoldOfFold(cs: seq<Candle>, a: nat, n: nat)
    requires Coarser(a, n)
    ensures Fold(Fold(cs, a), n) == Fold(cs, n)
  {
    FoldOfFoldedPrefix(cs, [], a, n);
    assert Fold(cs, a) + [] == Fold(cs, a) && cs + [] == cs;
  }

  lemma {:induction false} FoldDependsOnFoldedTail(x: seq<Candle>, y: seq<Candle>, z: seq<Candle>, interval: nat)
    requires interval >= 1 && Fold(y, interval) == Fold(z, interval)
    ensures Fold(x + y, interval) == Fold(x + z, interval)
  {
    if x == [] {
      assert x + y == y && x + z == z;
    } else {
      assert (x + y)[1..] == x[1..] + y && (x + z)[1..] == x[1..] + z;
      FoldDependsOnFoldedTail(x[1..], y, z, interval);
    }
  }

  /** Aggregating to `a` minutes and then to `a * b` equals aggregating to `a * b` at once. */
  lemma NestingLaw(cs: seq<Candle>, a: nat, b: nat)
    requires a >= 1 && b >= 1
    ensures Aggregated(Aggregated(cs, a), a * b) == Aggregated(cs, a * b)
  {
    MultiplesAreCoarser(a, b);
    if a > 1 && cs != [] {
      FoldIsBarsOfRuns(cs, a);
      FoldIsBarsOfRuns(Fold(cs, a), a * b);
      FoldIsBarsOfRuns(cs, a * b);
      FoldOfFold(cs, a, a * b);
    }
  }

  /** A list that is already aggregated is left alone. */
  lemma AggregationIsIdempotent(cs: seq<Candle>, a: nat)
    ensures Aggregated(Aggregated(cs, a), a) == Aggregated(cs, a)
  {
    if a >= 1 {
      NestingLaw(cs, a, 1);
      assert a * 1 == a;
    }
  }

  lemma VolumeSplits(a: seq<Candle>, b: seq<Candle>)
    ensures VolumeOf(a + b) == VolumeOf(a) + VolumeOf(b)
  {
    if a == [] {
      assert a + b == b;
    } else {
      assert (a + b)[1..] == a[1..] + b;
      VolumeSplits(a[1..], b);
    }
  }

  lemma {:induction false} FoldKeepsVolume(cs: seq<Candle>, interval: nat)
    requires interval >= 1
    ensures VolumeOf(Fold(cs, interval)) == VolumeOf(cs)
  {
    if cs != [] {
      var rest := Fold(cs[1..], interval);
      FoldKeepsVolume(cs[1..], interval);
      if rest != [] && SlotKey(rest[0], interval) == SlotKey(cs[0], interval) {
        assert ([Merge(cs[0], rest[0])] + rest[1..])[1..] == rest[1..];
      } else {
        assert ([cs[0]] + rest)[1..] == rest;
      }
    }
  }

  /** No traded volume is lost or invented. */
  lemma AggregationKeepsVolume(cs: seq<Candle>, interval: nat)
    ensures VolumeOf(Aggregated(cs, interval)) == VolumeOf(cs)
  {
    if cs != [] && interval > 1 {
      FoldKeepsVolume(cs, interval);
      FoldIsBarsOfRuns(cs, interval);
    }
  }
}

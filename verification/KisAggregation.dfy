/**
 The collector's aggregation: candles are put into an ordered map keyed by the start of
 their bucket, and each bucket becomes one bar.
 */
module KisAggregation {
  import opened Arithmetic
  import opened Candles

  /** A stored candle; `datetime` counts seconds, 86400 to the day. */
  datatype KisCandle = KisCandle(
    datetime: int, open: int, high: int, low: int, close: int, volume: int, interval: int)

  function DateOf(k: KisCandle): int { k.datetime / 86400 }

  function TimeOf(k: KisCandle): Time { k.datetime % 86400 }

  /** The same candle in the strategy's own layout. */
  function ToCandle(k: KisCandle): Candle {
    Candle(DateOf(k), TimeOf(k), k.open, k.high, k.low, k.close, k.volume)
  }

  function ToCandles(ks: seq<KisCandle>): (cs: seq<Candle>)
    ensures |cs| == |ks|
  {
    seq(|ks|, i requires 0 <= i < |ks| => ToCandle(ks[i]))
  }

  /** Start of the bucket, in the same unit as `datetime`. */
  function BucketOf(k: KisCandle, step: nat): int
    requires step >= 1
  {
    DateOf(k) * 86400 + (TimeOf(k) / 60 / step * step) * 60
  }

  // ---------------------------------------------------------------------------
  // The ordered map
  // ---------------------------------------------------------------------------

  datatype Entry = Entry(key: int, group: seq<KisCandle>)

  /** A map as its entries in key order. */
  type Buckets = seq<Entry>

  ghost predicate KeysIncrease(m: Buckets) {
    forall i, j :: 0 <= i < j < |m| ==> m[i].key < m[j].key
  }

  /** Pushes a candle onto the vector stored under a key, creating it when absent. */
  function PushUnder(m: Buckets, key: int, c: KisCandle): (r: Buckets)
    ensures r != []
    ensures m == [] || key <= m[0].key ==> r[0].key == key
    ensures m != [] && m[0].key < key ==> r[0].key == m[0].key
  {
    if m == [] then [Entry(key, [c])]
    else if key < m[0].key then [Entry(key, [c])] + m
    else if key == m[0].key then [Entry(key, m[0].group + [c])] + m[1..]
    else [m[0]] + PushUnder(m[1..], key, c)
  }

  function GroupUnder(m: Buckets, key: int): seq<KisCandle> {
    if m == [] then [] else if m[0].key == key then m[0].group else GroupUnder(m[1..], key)
  }

  lemma {:induction false} PushUnderKeepsOrder(m: Buckets, key: int, c: KisCandle)
    requires KeysIncrease(m)
    ensures KeysIncrease(PushUnder(m, key, c))
  {
    if m != [] && m[0].key < key {
      var rest := PushUnder(m[1..], key, c);
      PushUnderKeepsOrder(m[1..], key, c);
      var r := [m[0]] + rest;
      forall i, j | 0 <= i < j < |r| ensures r[i].key < r[j].key {
        assert r[j] == rest[j - 1];
        if i == 0 {
          assert |m| > 1 ==> m[1..][0] == m[1];
          if j > 1 { assert rest[0].key < rest[j - 1].key; }
        } else {
          assert r[i] == rest[i - 1];
        }
      }
    }
  }

  lemma {:induction false} PushUnderLookup(m: Buckets, key: int, c: KisCandle, k: int)
    requires KeysIncrease(m)
    ensures GroupUnder(PushUnder(m, key, c), k) == GroupUnder(m, k) + if k == key then [c] else []
  {
    if m == [] {
    } else if m[0].key < key {
      PushUnderLookup(m[1..], key, c, k);
      assert ([m[0]] + PushUnder(m[1..], key, c))[1..] == PushUnder(m[1..], key, c);
    } else if m[0].key == key {
      assert ([Entry(key, m[0].group + [c])] + m[1..])[1..] == m[1..];
    } else {
      assert ([Entry(key, [c])] + m)[1..] == m;
      AbsentBelowFirst(m, key);
    }
  }

  lemma {:induction false} AbsentBelowFirst(m: Buckets, key: int)
    requires KeysIncrease(m) && (m == [] || key < m[0].key)
    ensures GroupUnder(m, key) == []
  {
    if |m| > 1 {
      assert m[0].key < m[1].key;
      AbsentBelowFirst(m[1..], key);
    }
  }

  /** Every vector in the map is nonempty. */
  ghost predicate GroupsFilled(m: Buckets) {
    forall i :: 0 <= i < |m| ==> m[i].group != []
  }

  lemma {:induction false} PushUnderKeepsFilled(m: Buckets, key: int, c: KisCandle)
    requires GroupsFilled(m)
    ensures GroupsFilled(PushUnder(m, key, c))
  {
    if m != [] && m[0].key < key {
      PushUnderKeepsFilled(m[1..], key, c);
    }
  }

  /** The map after all candles were pushed, left to right. */
  function Grouped(ks: seq<KisCandle>, step: nat): Buckets
    requires step >= 1
  {
    if ks == [] then []
    else
      var last := ks[|ks| - 1];
      PushUnder(Grouped(ks[..|ks| - 1], step), BucketOf(last, step), last)
  }

  function InBucket(ks: seq<KisCandle>, key: int, step: nat): seq<KisCandle>
    requires step >= 1
  {
    if ks == [] then []
    else
      var last := ks[|ks| - 1];
      InBucket(ks[..|ks| - 1], key, step) + if BucketOf(last, step) == key then [last] else []
  }

  /** The map holds, in increasing key order, exactly the candles of each bucket in input order. */
  lemma {:induction false} GroupedIsExact(ks: seq<KisCandle>, step: nat, key: int)
    requires step >= 1
    ensures KeysIncrease(Grouped(ks, step)) && GroupsFilled(Grouped(ks, step))
    ensures GroupUnder(Grouped(ks, step), key) == InBucket(ks, key, step)
  {
    if ks != [] {
      var front, last := ks[..|ks| - 1], ks[|ks| - 1];
      GroupedIsExact(front, step, key);
      PushUnderKeepsOrder(Grouped(front, step), BucketOf(last, step), last);
      PushUnderKeepsFilled(Grouped(front, step), BucketOf(last, step), last);
      PushUnderLookup(Grouped(front, step), BucketOf(last, step), last, key);
    }
  }

  // ---------------------------------------------------------------------------
  // From buckets to bars
  // ---------------------------------------------------------------------------

  /** Stable insertion of an earlier element in front of later ones. */
  function InsertByTime(c: KisCandle, s: seq<KisCandle>): seq<KisCandle> {
    if s == [] || c.datetime <= s[0].datetime then [c] + s
    else [s[0]] + InsertByTime(c, s[1..])
  }

  /** The stable sort by `datetime`. */
  function SortByTime(s: seq<KisCandle>): (r: seq<KisCandle>)
    ensures s != [] ==> r != []
  {
    if s == [] then [] else InsertByTime(s[0], SortByTime(s[1..]))
  }

  ghost predicate TimeSorted(ks: seq<KisCandle>) {
    forall i, j :: 0 <= i < j < |ks| ==> ks[i].datetime <= ks[j].datetime
  }

  lemma {:induction false} SortLeavesSorted(s: seq<KisCandle>)
    requires TimeSorted(s)
    ensures SortByTime(s) == s
  {
    if s != [] {
      SortLeavesSorted(s[1..]);
      assert s == [s[0]] + s[1..];
    }
  }

  function BarOf(e: Entry, interval: int): KisCandle
    requires e.group != []
  {
    var g := SortByTime(e.group);
    var b := Bar(ToCandles(g));
    KisCandle(e.key, b.open, b.high, b.low, b.close, b.volume, interval)
  }

  function BarsOf(m: Buckets, interval: int): (bs: seq<KisCandle>)
    requires forall i :: 0 <= i < |m| ==> m[i].group != []
    ensures |bs| == |m|
    ensures forall i :: 0 <= i < |m| ==> bs[i] == BarOf(m[i], interval)
  {
    if m == [] then [] else [BarOf(m[0], interval)] + BarsOf(m[1..], interval)
  }

  function KisAggregated(ks: seq<KisCandle>, interval: int): seq<KisCandle> {
    if interval <= 1 then ks
    else
      GroupedIsExact(ks, interval, 0);
      BarsOf(Grouped(ks, interval), interval)
  }

  method AggregateOhlc(oneMin: seq<KisCandle>, interval: int) returns (result: seq<KisCandle>)
    ensures result == KisAggregated(oneMin, interval)
  {
    if interval <= 1 {
      return oneMin;
    }
    var buckets: Buckets := [];
    for i := 0 to |oneMin|
      invariant buckets == Grouped(oneMin[..i], interval)
    {
      assert oneMin[..i + 1][..i] == oneMin[..i];
      buckets := PushUnder(buckets, BucketOf(oneMin[i], interval), oneMin[i]);
    }
    assert oneMin[..|oneMin|] == oneMin;
    GroupedIsExact(oneMin, interval, 0);
    result := BarsOf(buckets, interval);
  }

  // ---------------------------------------------------------------------------
  // Agreement with the run-scanning aggregation
  // ---------------------------------------------------------------------------

  /** The interval divides the 540 minutes from midnight to 09:00: both count from the same minutes. */
  predicate Aligned(interval: nat) {
    interval >= 2 && 540 % interval == 0
  }

  /** Collector and strategy cut the hours from 09:00 on at the same minutes, or not at all. */
  predicate SameCuts(interval: nat) {
    Aligned(interval) || interval >= 1440
  }

  ghost predicate FromOpen(ks: seq<KisCandle>) {
    forall i :: 0 <= i < |ks| ==> TimeOf(ks[i]) >= MARKET_OPEN
  }

  /** First second of a candle's slot. */
  function SlotStart(c: Candle, interval: nat): int
    requires interval >= 1
  {
    c.date * 86400 + MARKET_OPEN + SlotKey(c, interval).1 * interval * 60
  }

  lemma BucketIsSlotStart(k: KisCandle, interval: nat)
    requires Aligned(interval) && TimeOf(k) >= MARKET_OPEN
    ensures BucketOf(k, interval) == SlotStart(ToCandle(k), interval)
  {
    var m := MinutesFromOpen(TimeOf(k));
    assert TimeOf(k) / 60 == 540 + m;
    ShiftedDivision(m, 540, interval);
  }

  lemma SlotStartInjective(a: Candle, b: Candle, interval: nat)
    requires interval >= 1
    requires a.time >= MARKET_OPEN && b.time >= MARKET_OPEN
    ensures SlotStart(a, interval) == SlotStart(b, interval) <==> SlotKey(a, interval) == SlotKey(b, interval)
  {
    SlotStartWithinDay(a, interval);
    SlotStartWithinDay(b, interval);
    SlotStartOfKey(a, interval);
    SlotStartOfKey(b, interval);
    hide SlotStart, SlotKey;
    if SlotStart(a, interval) == SlotStart(b, interval) {
      assert a.date == b.date;
      var p, q := SlotKey(a, interval).1, SlotKey(b, interval).1;
      MulMono(interval, p + 1, q);
      MulMono(interval, q + 1, p);
    }
  }

  lemma SlotStartOfKey(a: Candle, interval: nat)
    requires interval >= 1
    ensures SlotKey(a, interval).0 == a.date
    ensures SlotStart(a, interval) == a.date * 86400 + MARKET_OPEN + interval * SlotKey(a, interval).1 * 60
  {
  }

  lemma SlotStartWithinDay(a: Candle, interval: nat)
    requires interval >= 1 && a.time >= MARKET_OPEN
    ensures 0 <= SlotStart(a, interval) - a.date * 86400 <= a.time
  {
    DivMod(MinutesFromOpen(a.time), interval);
  }

  lemma BucketMonotone(a: KisCandle, b: KisCandle, interval: nat)
    requires interval >= 1
    requires a.datetime <= b.datetime
    ensures BucketOf(a, interval) <= BucketOf(b, interval)
  {
    FloorToMultiple(TimeOf(a) / 60, interval);
    FloorToMultiple(TimeOf(b) / 60, interval);
    if DateOf(a) == DateOf(b) {
      DivMono(TimeOf(a) / 60, TimeOf(b) / 60, interval);
    } else {
      var x, y := TimeOf(a) / 60 / interval * interval, TimeOf(b) / 60 / interval * interval;
      assert x <= 1439 && y >= 0;
      assert DateOf(a) + 1 <= DateOf(b);
    }
  }

  /** Bucket by bucket, the map holds the runs, each under the bucket of its first candle. */
  ghost predicate Mirrors(m: Buckets, rs: seq<seq<Candle>>, interval: nat)
    requires interval >= 1
  {
    && |m| == |rs|
    && (forall i :: 0 <= i < |m| ==> MirrorsRun(m[i], rs[i], interval))
  }

  ghost predicate MirrorsRun(e: Entry, r: seq<Candle>, interval: nat)
    requires interval >= 1
  {
    && e.group != []
    && TimeSorted(e.group)
    && ToCandles(e.group) == r
    && TimeOf(e.group[0]) >= MARKET_OPEN
    && e.key == BucketOf(e.group[0], interval)
  }

  lemma KeysOfRest(m: Buckets)
    requires KeysIncrease(m)
    ensures |m| > 1 ==> KeysIncrease(m[1..]) && m[0].key < m[|m| - 1].key
  {
  }

  lemma {:induction false} PushUnderAtEnd(m: Buckets, key: int, c: KisCandle)
    requires KeysIncrease(m)
    requires m == [] || m[|m| - 1].key <= key
    ensures PushUnder(m, key, c)
         == if m != [] && m[|m| - 1].key == key
            then m[..|m| - 1] + [Entry(key, m[|m| - 1].group + [c])]
            else m + [Entry(key, [c])]
  {
    hide KeysIncrease;
    KeysOfRest(m);
    if |m| > 1 {
      assert m[1..][|m| - 2] == m[|m| - 1];
      PushUnderAtEnd(m[1..], key, c);
    }
  }

  lemma ToCandlesConcat(a: seq<KisCandle>, b: seq<KisCandle>)
    ensures ToCandles(a + b) == ToCandles(a) + ToCandles(b)
  {
  }

  /** Map and runs in step, the last bucket being that of the last candle read. */
  ghost predicate InStep(ks: seq<KisCandle>, m: Buckets, rs: seq<seq<Candle>>, interval: nat)
    requires interval >= 1
  {
    && Mirrors(m, rs, interval)
    && (ks == [] <==> m == [])
    && (ks != [] ==>
          var e := m[|m| - 1];
          && e.key == BucketOf(ks[|ks| - 1], interval)
          && e.group[|e.group| - 1] == ks[|ks| - 1])
  }

  lemma GroupedSnoc(front: seq<KisCandle>, last: KisCandle, interval: nat)
    requires interval >= 1
    ensures Grouped(front + [last], interval)
         == PushUnder(Grouped(front, interval), BucketOf(last, interval), last)
  {
    hide PushUnder, BucketOf;
    assert (front + [last])[..|front + [last]| - 1] == front;
  }

  lemma NothingInStep(interval: nat)
    requires interval >= 1
    ensures InStep([], Grouped([], interval), Runs(ToCandles([]), interval), interval)
  {
    hide Mirrors;
    assert Grouped([], interval) == [] && Runs(ToCandles([]), interval) == [];
    assert Mirrors([], [], interval) by { NothingMirrors(interval); }
  }

  lemma NothingMirrors(interval: nat)
    requires interval >= 1
    ensures Mirrors([], [], interval)
  {
  }

  lemma {:induction false} MapMirrorsRuns(ks: seq<KisCandle>, interval: nat)
    requires interval >= 2 && SameCuts(interval) && TimeSorted(ks) && FromOpen(ks)
    ensures InStep(ks, Grouped(ks, interval), Runs(ToCandles(ks), interval), interval)
  {
    hide InStep, Runs, BucketOf, KeysIncrease, GroupsFilled, AppendToRuns, Grouped, Mirrors, ToCandles, PushUnder, TimeOf, SameCuts;
    if ks == [] {
      NothingInStep(interval);
    } else {
      var front, last := ks[..|ks| - 1], ks[|ks| - 1];
      assert ks == front + [last];
      MapMirrorsRuns(front, interval);
      GroupedIsExact(front, interval, 0);
      GroupedSnoc(front, last, interval);
      ToCandlesSnoc(front, last);
      RunsSnoc(ToCandles(front), ToCandle(last), interval);
      MirrorStep(front, Grouped(front, interval), Runs(ToCandles(front), interval), last, interval);
    }
  }

  lemma ToCandlesSnoc(front: seq<KisCandle>, last: KisCandle)
    ensures ToCandles(front + [last]) == ToCandles(front) + [ToCandle(last)]
  {
  }

  lemma MirrorStep(front: seq<KisCandle>, m: Buckets, rs: seq<seq<Candle>>, last: KisCandle, interval: nat)
    requires interval >= 2 && SameCuts(interval) && KeysIncrease(m) && InStep(front, m, rs, interval)
    requires forall k :: 0 <= k < |rs| ==> rs[k] != []
    requires front != [] ==> front[|front| - 1].datetime <= last.datetime
    requires TimeOf(last) >= MARKET_OPEN
    ensures InStep(front + [last], PushUnder(m, BucketOf(last, interval), last),
                   AppendToRuns(rs, ToCandle(last), interval), interval)
  {
    hide BucketOf, SlotKey, TimeSorted, PushUnder, KeysIncrease, SameCuts;
    var key := BucketOf(last, interval);
    FirstOfBucket(last, interval);
    if m != [] {
      BucketMonotone(front[|front| - 1], last, interval);
      SameSlotSameBucket(m[|m| - 1], rs[|rs| - 1], last, interval);
      GroupSnoc(m[|m| - 1], rs[|rs| - 1], last, interval);
    }
    PushUnderAtEnd(m, key, last);
  }

  lemma FirstOfBucket(last: KisCandle, interval: nat)
    requires interval >= 1 && TimeOf(last) >= MARKET_OPEN
    ensures MirrorsRun(Entry(BucketOf(last, interval), [last]), [ToCandle(last)], interval)
  {
    assert ToCandles([last]) == [ToCandle(last)];
  }

  lemma SameSlotSameBucket(e: Entry, r: seq<Candle>, last: KisCandle, interval: nat)
    requires SameCuts(interval) && MirrorsRun(e, r, interval) && TimeOf(last) >= MARKET_OPEN
    ensures r != []
    ensures e.key == BucketOf(last, interval) <==> SlotKey(r[0], interval) == SlotKey(ToCandle(last), interval)
  {
    if Aligned(interval) {
      BucketIsSlotStart(e.group[0], interval);
      BucketIsSlotStart(last, interval);
      SlotStartInjective(ToCandle(e.group[0]), ToCandle(last), interval);
    } else {
      WholeDayIsOneBucket(e.group[0], interval);
      WholeDayIsOneBucket(last, interval);
    }
  }

  /** An interval longer than the day puts all of it into one bucket and one slot. */
  lemma WholeDayIsOneBucket(k: KisCandle, interval: nat)
    requires interval >= 1440
    ensures BucketOf(k, interval) == DateOf(k) * 86400
    ensures SlotKey(ToCandle(k), interval) == (DateOf(k), 0)
  {
    var minute := TimeOf(k) / 60;
    DivUnique(minute, interval, 0, minute);
    DivUnique(MinutesFromOpen(TimeOf(k)), interval, 0, MinutesFromOpen(TimeOf(k)));
  }

  lemma GroupSnoc(e: Entry, r: seq<Candle>, last: KisCandle, interval: nat)
    requires interval >= 1 && MirrorsRun(e, r, interval)
    requires e.group[|e.group| - 1].datetime <= last.datetime
    ensures MirrorsRun(Entry(e.key, e.group + [last]), r + [ToCandle(last)], interval)
  {
    ToCandlesConcat(e.group, [last]);
    var g := e.group + [last];
    forall i, j | 0 <= i < j < |g| ensures g[i].datetime <= g[j].datetime {
      assert e.group[i].datetime <= e.group[|e.group| - 1].datetime by {
        assert i == |e.group| - 1 || e.group[i].datetime <= e.group[|e.group| - 1].datetime;
      }
    }
  }

  /** Bar by bar the same prices and volume, the collector's label being the start of the slot. */
  ghost predicate Agree(ks: seq<KisCandle>, interval: nat)
    requires interval >= 1
  {
    var kis, bars := KisAggregated(ks, interval), Aggregated(ToCandles(ks), interval);
    && |kis| == |bars|
    && forall i :: 0 <= i < |bars| ==>
         kis[i] == KisCandle(SlotStart(bars[i], interval), bars[i].open, bars[i].high, bars[i].low,
                             bars[i].close, bars[i].volume, interval)
  }

  lemma BarOfRun(e: Entry, r: seq<Candle>, interval: nat)
    requires Aligned(interval) && MirrorsRun(e, r, interval)
    ensures var b := Bar(r);
            BarOf(e, interval)
            == KisCandle(SlotStart(b, interval), b.open, b.high, b.low, b.close, b.volume, interval)
  {
    hide SlotStart, SlotKey, BucketOf, HighOf, LowOf, VolumeOf;
    SortLeavesSorted(e.group);
    BucketIsSlotStart(e.group[0], interval);
    SlotStartOfFirst(ToCandle(e.group[0]), Bar(r), interval);
  }

  lemma SlotStartOfFirst(a: Candle, b: Candle, interval: nat)
    requires interval >= 1 && a.date == b.date && a.time == b.time
    ensures SlotStart(a, interval) == SlotStart(b, interval)
  {
  }

  lemma AggregationsAgree(ks: seq<KisCandle>, interval: nat)
    requires Aligned(interval) && TimeSorted(ks) && FromOpen(ks)
    ensures Agree(ks, interval)
  {
    hide SlotStart, SlotKey, BarOf, Bar, MirrorsRun, Runs, Grouped;
    var m, rs := Grouped(ks, interval), Runs(ToCandles(ks), interval);
    GroupedIsExact(ks, interval, 0);
    MapMirrorsRuns(ks, interval);
    assert Bars(rs) == Aggregated(ToCandles(ks), interval);
    forall i | 0 <= i < |rs|
      ensures var b := Bars(rs)[i];
              BarsOf(m, interval)[i]
              == KisCandle(SlotStart(b, interval), b.open, b.high, b.low, b.close, b.volume, interval)
    {
      BarOfRun(m[i], rs[i], interval);
    }
  }

  /** One candle at 09:00 already tells the two apart when the interval does not divide 540. */
  lemma OpeningCandleTellsApart(interval: nat)
    requires interval >= 2 && 540 % interval != 0
    ensures var ks := [KisCandle(32400, 1, 1, 1, 1, 1, 1)];
            TimeSorted(ks) && FromOpen(ks) && !Agree(ks, interval)
  {
    var k := KisCandle(32400, 1, 1, 1, 1, 1, 1);
    var ks := [k];
    assert ks[..0] == [];
    assert Grouped(ks, interval) == [Entry(BucketOf(k, interval), [k])];
    assert KisAggregated(ks, interval)[0].datetime == BucketOf(k, interval);
    assert ToCandles(ks) == [ToCandle(k)];
    assert [ToCandle(k)][1..] == [];
    assert Runs(ToCandles(ks), interval) == [[ToCandle(k)]];
    SingletonBar(ToCandle(k));
    assert SlotKey(ToCandle(k), interval) == (0, 0) by {
      DivMod(0, interval);
      MulMono(interval, 1, 0 / interval);
    }
    DivMod(540, interval);
  }

  /**
   On every time-sorted list from 09:00 on the two aggregations agree, exactly when the
   interval divides the 540 minutes between midnight and 09:00.
   */
  lemma AgreementExact(interval: nat)
    requires interval >= 2
    ensures (forall ks :: TimeSorted(ks) && FromOpen(ks) ==> Agree(ks, interval)) <==> Aligned(interval)
  {
    if Aligned(interval) {
      forall ks | TimeSorted(ks) && FromOpen(ks) ensures Agree(ks, interval) {
        AggregationsAgree(ks, interval);
      }
    } else {
      OpeningCandleTellsApart(interval);
    }
  }

  // ---------------------------------------------------------------------------
  // Agreement of prices and volumes alone
  // ---------------------------------------------------------------------------

  datatype Ohlcv = Ohlcv(open: int, high: int, low: int, close: int, volume: int)

  function KisOhlcv(k: KisCandle): Ohlcv { Ohlcv(k.open, k.high, k.low, k.close, k.volume) }

  function CandleOhlcv(c: Candle): Ohlcv { Ohlcv(c.open, c.high, c.low, c.close, c.volume) }

  /** The same bars, whatever they are labelled with. */
  ghost predicate SameOhlcv(kis: seq<KisCandle>, bars: seq<Candle>) {
    && |kis| == |bars|
    && forall i :: 0 <= i < |bars| ==> KisOhlcv(kis[i]) == CandleOhlcv(bars[i])
  }

  lemma OhlcvOfRun(e: Entry, r: seq<Candle>, interval: nat)
    requires interval >= 1 && MirrorsRun(e, r, interval)
    ensures r != [] && KisOhlcv(BarOf(e, interval)) == CandleOhlcv(Bar(r))
  {
    hide BucketOf, HighOf, LowOf, VolumeOf;
    SortLeavesSorted(e.group);
  }

  lemma OhlcvAgrees(ks: seq<KisCandle>, interval: nat)
    requires SameCuts(interval) && TimeSorted(ks) && FromOpen(ks)
    ensures SameOhlcv(KisAggregated(ks, interval), Aggregated(ToCandles(ks), interval))
  {
    hide BarOf, Bar, MirrorsRun, Runs, Grouped, ToCandles, KisOhlcv, CandleOhlcv, FromOpen, TimeSorted;
    var m, rs := Grouped(ks, interval), Runs(ToCandles(ks), interval);
    GroupedIsExact(ks, interval, 0);
    MapMirrorsRuns(ks, interval);
    assert Bars(rs) == Aggregated(ToCandles(ks), interval) by { BarsAreAggregated(ToCandles(ks), interval); }
    forall i | 0 <= i < |rs| ensures KisOhlcv(BarsOf(m, interval)[i]) == CandleOhlcv(Bars(rs)[i]) {
      OhlcvOfRun(m[i], rs[i], interval);
    }
  }

  lemma BarsAreAggregated(cs: seq<Candle>, interval: nat)
    requires interval >= 2
    ensures Bars(Runs(cs, interval)) == Aggregated(cs, interval)
  {
  }

  function AtMinute(minute: nat): KisCandle {
    KisCandle(minute * 60, 1, 1, 1, 1, 1, 1)
  }

  /** Two neighbouring minutes fall into one bucket of the day, or slot from 09:00 on. */
  predicate SharePart(minute: nat, interval: nat)
    requires interval >= 1 && minute >= 1
  {
    (minute - 1) / interval == minute / interval
  }

  /** How many bars each side makes of two candles in neighbouring minutes. */
  lemma BarsOfTwo(minute: nat, interval: nat)
    requires 541 <= minute < 1440 && interval >= 2
    ensures var ks := [AtMinute(minute - 1), AtMinute(minute)];
            && TimeSorted(ks) && FromOpen(ks)
            && |KisAggregated(ks, interval)| == (if SharePart(minute, interval) then 1 else 2)
            && |Aggregated(ToCandles(ks), interval)| == (if SharePart(minute - 540, interval) then 1 else 2)
  {
    hide *;
    BucketsOfNeighbours(minute, interval);
    SlotsOfNeighbours(minute, interval);
    TwoInOrder(minute);
    TwoBuckets(AtMinute(minute - 1), AtMinute(minute), interval);
    TwoRuns(ToCandle(AtMinute(minute - 1)), ToCandle(AtMinute(minute)), interval);
    ToCandlesOfTwo(AtMinute(minute - 1), AtMinute(minute));
  }

  lemma TwoInOrder(minute: nat)
    requires 541 <= minute < 1440
    ensures TimeSorted([AtMinute(minute - 1), AtMinute(minute)]) && FromOpen([AtMinute(minute - 1), AtMinute(minute)])
  {
  }

  lemma ToCandlesOfTwo(x: KisCandle, y: KisCandle)
    ensures ToCandles([x, y]) == [ToCandle(x), ToCandle(y)]
  {
  }

  lemma BucketsOfNeighbours(minute: nat, interval: nat)
    requires 1 <= minute < 1440 && interval >= 1
    ensures BucketOf(AtMinute(minute - 1), interval) <= BucketOf(AtMinute(minute), interval)
    ensures BucketOf(AtMinute(minute - 1), interval) == BucketOf(AtMinute(minute), interval)
            <==> SharePart(minute, interval)
  {
    hide *;
    QuotientsOfNeighbours(minute, interval);
    BucketOfMinute(minute - 1, Quotient(minute - 1, interval), interval);
    BucketOfMinute(minute, Quotient(minute, interval), interval);
    ProductsIncrease(Quotient(minute - 1, interval), Quotient(minute, interval), interval);
  }

  function Quotient(minute: nat, interval: nat): nat
    requires interval >= 1
  {
    minute / interval
  }

  lemma QuotientsOfNeighbours(minute: nat, interval: nat)
    requires minute >= 1 && interval >= 1
    ensures Quotient(minute - 1, interval) <= Quotient(minute, interval)
    ensures SharePart(minute, interval) <==> Quotient(minute - 1, interval) == Quotient(minute, interval)
  {
    QuotientMono(minute - 1, minute, interval);
  }

  lemma ProductsIncrease(p: nat, q: nat, d: nat)
    requires d >= 1 && p <= q
    ensures d * p * 60 <= d * q * 60 && (d * p * 60 == d * q * 60 <==> p == q)
  {
    MulMono(d, p, q);
    MulMono(d, p + 1, q);
  }

  lemma BucketOfMinute(minute: nat, q: nat, interval: nat)
    requires minute < 1440 && interval >= 1 && q == Quotient(minute, interval)
    ensures BucketOf(AtMinute(minute), interval) == interval * q * 60
  {
    assert DateOf(AtMinute(minute)) == 0 && TimeOf(AtMinute(minute)) / 60 == minute;
  }

  lemma SlotsOfNeighbours(minute: nat, interval: nat)
    requires 541 <= minute < 1440 && interval >= 1
    ensures SlotKey(ToCandle(AtMinute(minute - 1)), interval) == SlotKey(ToCandle(AtMinute(minute)), interval)
            <==> SharePart(minute - 540, interval)
  {
    assert MinutesFromOpen(TimeOf(AtMinute(minute))) == minute - 540;
    assert MinutesFromOpen(TimeOf(AtMinute(minute - 1))) == minute - 541;
  }

  lemma TwoBuckets(x: KisCandle, y: KisCandle, interval: nat)
    requires interval >= 2 && BucketOf(x, interval) <= BucketOf(y, interval)
    ensures |KisAggregated([x, y], interval)| == if BucketOf(x, interval) == BucketOf(y, interval) then 1 else 2
  {
    hide *;
    var k, l := BucketOf(x, interval), BucketOf(y, interval);
    assert [x] + [y] == [x, y] && [] + [x] == [x];
    GroupedNothing(interval);
    GroupedSnoc([], x, interval);
    GroupedSnoc([x], y, interval);
    PushUnderTwice(k, x, l, y);
    KisBarCount([x, y], interval);
  }

  lemma GroupedNothing(interval: nat)
    requires interval >= 1
    ensures Grouped([], interval) == []
  {
  }

  lemma PushUnderTwice(k: int, x: KisCandle, l: int, y: KisCandle)
    requires k <= l
    ensures |PushUnder(PushUnder([], k, x), l, y)| == if k == l then 1 else 2
  {
  }

  lemma KisBarCount(ks: seq<KisCandle>, interval: nat)
    requires interval >= 2
    ensures |KisAggregated(ks, interval)| == |Grouped(ks, interval)|
  {
    hide Grouped, BarOf;
    GroupedIsExact(ks, interval, 0);
  }

  lemma TwoRuns(x: Candle, y: Candle, interval: nat)
    requires interval >= 2
    ensures |Aggregated([x, y], interval)| == if SlotKey(x, interval) == SlotKey(y, interval) then 1 else 2
  {
    hide SlotKey, Bar;
    assert [x] + [y] == [x, y] && [] + [x] == [x];
    RunsSnoc([], x, interval);
    RunsSnoc([x], y, interval);
  }

  /** Without common cuts some minute of the day is a cut for one side only. */
  lemma SomeCutIsOneSided(interval: nat) returns (minute: nat)
    requires interval >= 2 && !SameCuts(interval)
    ensures 541 <= minute < 1440 && SharePart(minute, interval) != SharePart(minute - 540, interval)
  {
    if interval < 900 {
      minute := 540 + interval;
      DivMod(540, interval);
      DivUnique(540 + interval, interval, 540 / interval + 1, 540 % interval);
      DivUnique(539 + interval, interval, 540 / interval + 1, 540 % interval - 1);
      DivUnique(interval - 1, interval, 0, interval - 1);
      DivUnique(interval, interval, 1, 0);
    } else {
      minute := interval;
      DivUnique(interval - 1, interval, 0, interval - 1);
      DivUnique(interval, interval, 1, 0);
      DivUnique(interval - 541, interval, 0, interval - 541);
      DivUnique(interval - 540, interval, 0, interval - 540);
    }
  }

  ghost predicate OhlcvAlwaysAgrees(interval: nat) {
    forall ks :: TimeSorted(ks) && FromOpen(ks) ==>
      SameOhlcv(KisAggregated(ks, interval), Aggregated(ToCandles(ks), interval))
  }

  /**
   Prices and volumes agree on every time-sorted list from 09:00 on, exactly when nothing is
   aggregated, the interval divides 540, or it is longer than the day.
   */
  lemma OhlcvAgreementExact(interval: nat)
    ensures OhlcvAlwaysAgrees(interval) <==> interval <= 1 || 540 % interval == 0 || interval >= 1440
  {
    hide KisAggregated, Aggregated, ToCandles, TimeSorted, FromOpen, SameOhlcv;
    if interval <= 1 {
      forall ks ensures SameOhlcv(KisAggregated(ks, interval), Aggregated(ToCandles(ks), interval)) {
        NothingAggregated(ks, interval);
      }
    } else if SameCuts(interval) {
      forall ks | TimeSorted(ks) && FromOpen(ks)
        ensures SameOhlcv(KisAggregated(ks, interval), Aggregated(ToCandles(ks), interval))
      {
        OhlcvAgrees(ks, interval);
      }
    } else {
      var minute := SomeCutIsOneSided(interval);
      BarsOfTwo(minute, interval);
      var ks := [AtMinute(minute - 1), AtMinute(minute)];
      assert !SameOhlcv(KisAggregated(ks, interval), Aggregated(ToCandles(ks), interval)) by {
        SameOhlcvCounts(KisAggregated(ks, interval), Aggregated(ToCandles(ks), interval));
      }
    }
  }

  lemma SameOhlcvCounts(kis: seq<KisCandle>, bars: seq<Candle>)
    ensures SameOhlcv(kis, bars) ==> |kis| == |bars|
  {
  }

  lemma NothingAggregated(ks: seq<KisCandle>, interval: nat)
    requires interval <= 1
    ensures SameOhlcv(KisAggregated(ks, interval), Aggregated(ToCandles(ks), interval))
  {
  }

  // ---------------------------------------------------------------------------
  // The sort within a bucket
  // ---------------------------------------------------------------------------

  /** The candles of one time, in their order. */
  function AtTime(s: seq<KisCandle>, t: int): seq<KisCandle> {
    if s == [] then [] else (if s[0].datetime == t then [s[0]] else []) + AtTime(s[1..], t)
  }

  lemma {:induction false} InsertIsStable(c: KisCandle, s: seq<KisCandle>, t: int)
    requires TimeSorted(s)
    ensures TimeSorted(InsertByTime(c, s))
    ensures AtTime(InsertByTime(c, s), t) == (if c.datetime == t then [c] else []) + AtTime(s, t)
    ensures forall x :: x in InsertByTime(c, s) <==> x == c || x in s
  {
    hide AtTime, TimeSorted;
    InsertByTimeUnfolds(c, s);
    if s == [] || c.datetime <= s[0].datetime {
      AtTimeCons(c, s, t);
      BeforeTheFirst(c, s);
    } else {
      var rest := InsertByTime(c, s[1..]);
      hide InsertByTime;
      TailIsSorted(s);
      InsertIsStable(c, s[1..], t);
      assert s == [s[0]] + s[1..];
      AtTimeCons(s[0], s[1..], t);
      AtTimeCons(s[0], rest, t);
      FirstStaysFirst(s[0], rest, c, s);
    }
  }

  lemma InsertByTimeUnfolds(c: KisCandle, s: seq<KisCandle>)
    ensures InsertByTime(c, s)
         == if s == [] || c.datetime <= s[0].datetime then [c] + s else [s[0]] + InsertByTime(c, s[1..])
  {
  }

  lemma AtTimeCons(c: KisCandle, s: seq<KisCandle>, t: int)
    ensures AtTime([c] + s, t) == (if c.datetime == t then [c] else []) + AtTime(s, t)
  {
    assert ([c] + s)[1..] == s;
  }

  lemma TailIsSorted(s: seq<KisCandle>)
    requires TimeSorted(s) && s != []
    ensures TimeSorted(s[1..])
  {
  }

  lemma BeforeTheFirst(c: KisCandle, s: seq<KisCandle>)
    requires TimeSorted(s) && (s == [] || c.datetime <= s[0].datetime)
    ensures TimeSorted([c] + s)
  {
  }

  lemma FirstStaysFirst(first: KisCandle, rest: seq<KisCandle>, c: KisCandle, s: seq<KisCandle>)
    requires TimeSorted(s) && s != [] && first == s[0] && first.datetime < c.datetime
    requires TimeSorted(rest) && forall x :: x in rest ==> x == c || x in s[1..]
    ensures TimeSorted([first] + rest)
  {
    forall j | 0 <= j < |rest| ensures first.datetime <= rest[j].datetime {
      assert rest[j] in rest;
      if rest[j] != c {
        var i :| 0 <= i < |s[1..]| && s[1..][i] == rest[j];
        assert s[i + 1] == rest[j];
      }
    }
  }

  /** A bucket's candles are put in order of time, those of one time keeping the order in which they came. */
  lemma {:induction false} SortIsStable(s: seq<KisCandle>, t: int)
    ensures TimeSorted(SortByTime(s))
    ensures AtTime(SortByTime(s), t) == AtTime(s, t)
    ensures forall x :: x in SortByTime(s) <==> x in s
  {
    if s != [] {
      SortIsStable(s[1..], t);
      InsertIsStable(s[0], SortByTime(s[1..]), t);
      assert s == [s[0]] + s[1..];
    }
  }

  /** A bar is labelled with its bucket: open of its earliest candle, close of its latest, their extremes and volume. */
  lemma BarOfBucket(e: Entry, interval: int)
    requires e.group != []
    ensures var (g, b) := (SortByTime(e.group), BarOf(e, interval));
            && b.datetime == e.key && b.interval == interval
            && b.open == g[0].open && b.close == g[|g| - 1].close
            && (forall c :: c in e.group ==> b.low <= c.low && c.high <= b.high)
            && (exists c :: c in e.group && c.high == b.high) && (exists c :: c in e.group && c.low == b.low)
            && b.volume == VolumeOf(ToCandles(g))
  {
    hide SortByTime, HighOf, LowOf, VolumeOf;
    var g := SortByTime(e.group);
    SortIsStable(e.group, 0);
    var cs := ToCandles(g);
    var h := HighIsHighest(cs);
    var l := LowIsLowest(cs);
    assert g[h] in e.group && g[l] in e.group;
    forall c | c in e.group ensures LowOf(cs) <= c.low && c.high <= HighOf(cs) {
      var i :| 0 <= i < |g| && g[i] == c;
      assert cs[i] == ToCandle(c);
    }
  }
}

/** The cache of completed bars of one stock, keyed by time and granularity. */
module BarCache {

  /** `time` is the minute of the day; `intervalMin` the granularity (1 or 5). */
  datatype CachedBar = CachedBar(
    time: nat, intervalMin: nat, open: int, high: int, low: int, close: int, volume: int, isRealtime: bool)

  function Key(b: CachedBar): (nat, nat) { (b.time, b.intervalMin) }

  predicate Before(a: CachedBar, b: CachedBar) {
    a.time < b.time || (a.time == b.time && a.intervalMin < b.intervalMin)
  }

  /** `retain`: everything but the bars of the given key. */
  function Without(bars: seq<CachedBar>, key: (nat, nat)): seq<CachedBar> {
    if bars == [] then []
    else (if Key(bars[0]) == key then [] else [bars[0]]) + Without(bars[1..], key)
  }

  function InsertByKey(b: CachedBar, bars: seq<CachedBar>): seq<CachedBar> {
    if bars == [] || !Before(bars[0], b) then [b] + bars else [bars[0]] + InsertByKey(b, bars[1..])
  }

  /** `sort_by`: the stable sort by time, then granularity. */
  function SortByKey(bars: seq<CachedBar>): seq<CachedBar> {
    if bars == [] then [] else InsertByKey(bars[0], SortByKey(bars[1..]))
  }

  function Upserted(bars: seq<CachedBar>, b: CachedBar): seq<CachedBar> {
    SortByKey(Without(bars, Key(b)) + [b])
  }

  class Cache {
    var bars: seq<CachedBar>

    constructor ()
      ensures bars == []
    {
      bars := [];
    }

    method UpsertCompletedBar(bar: CachedBar)
      modifies this
      ensures bars == Upserted(old(bars), bar)
      ensures Ordered(old(bars)) ==> Ordered(bars)
      ensures forall b :: b in bars <==> b == bar || (b in old(bars) && Key(b) != Key(bar))
    {
      UpsertReplaces(bars, bar);
      bars := Without(bars, Key(bar));
      bars := bars + [bar];
      bars := SortByKey(bars);
    }

    /** A backfill: bars are upserted one after the other. */
    method UpsertAll(writes: seq<CachedBar>)
      requires bars == []
      modifies this
      ensures bars == AfterWrites(writes)
    {
      for i := 0 to |writes|
        invariant bars == AfterWrites(writes[..i])
      {
        assert writes[..i + 1][..i] == writes[..i];
        UpsertCompletedBar(writes[i]);
      }
      assert writes[..|writes|] == writes;
    }
  }

  function AfterWrites(writes: seq<CachedBar>): seq<CachedBar> {
    if writes == [] then [] else Upserted(AfterWrites(writes[..|writes| - 1]), writes[|writes| - 1])
  }

  /** The last bar written under each key. */
  function LastWrites(writes: seq<CachedBar>): map<(nat, nat), CachedBar> {
    if writes == [] then map[]
    else LastWrites(writes[..|writes| - 1])[Key(writes[|writes| - 1]) := writes[|writes| - 1]]
  }

  // ---------------------------------------------------------------------------

  /** Sorted by key, no key twice. */
  ghost predicate Ordered(bars: seq<CachedBar>) {
    forall i, j :: 0 <= i < j < |bars| ==> Before(bars[i], bars[j])
  }

  ghost predicate KeysDiffer(bars: seq<CachedBar>) {
    forall i, j :: 0 <= i < j < |bars| ==> Key(bars[i]) != Key(bars[j])
  }

  /** The list holds the map's bars and nothing else. */
  ghost predicate Lists(bars: seq<CachedBar>, m: map<(nat, nat), CachedBar>) {
    forall b :: b in bars <==> Key(b) in m && m[Key(b)] == b
  }

  lemma {:induction false} WithoutContents(bars: seq<CachedBar>, key: (nat, nat))
    ensures forall b :: b in Without(bars, key) <==> b in bars && Key(b) != key
  {
    if bars != [] {
      WithoutContents(bars[1..], key);
    }
  }

  lemma {:induction false} WithoutKeepsOrder(bars: seq<CachedBar>, key: (nat, nat))
    requires Ordered(bars)
    ensures Ordered(Without(bars, key))
  {
    if bars != [] {
      var rest := Without(bars[1..], key);
      WithoutKeepsOrder(bars[1..], key);
      WithoutContents(bars[1..], key);
      forall j | 0 <= j < |rest| ensures Before(bars[0], rest[j]) {
        assert rest[j] in bars[1..];
      }
    }
  }

  lemma {:induction false} InsertContents(b: CachedBar, bars: seq<CachedBar>)
    ensures forall x :: x in InsertByKey(b, bars) <==> x == b || x in bars
  {
    if bars != [] && Before(bars[0], b) {
      InsertContents(b, bars[1..]);
    }
  }

  lemma {:induction false} InsertKeepsOrder(b: CachedBar, bars: seq<CachedBar>)
    requires Ordered(bars)
    requires forall x :: x in bars ==> Key(x) != Key(b)
    ensures Ordered(InsertByKey(b, bars))
  {
    if bars != [] {
      if Before(bars[0], b) {
        var rest := InsertByKey(b, bars[1..]);
        InsertKeepsOrder(b, bars[1..]);
        InsertContents(b, bars[1..]);
        forall j | 0 <= j < |rest| ensures Before(bars[0], rest[j]) {
          assert rest[j] in rest;
          assert rest[j] == b || rest[j] in bars[1..];
        }
      } else {
        assert bars[0] in bars;
      }
    }
  }

  lemma {:induction false} SortContents(bars: seq<CachedBar>)
    ensures forall x :: x in SortByKey(bars) <==> x in bars
  {
    if bars != [] {
      SortContents(bars[1..]);
      InsertContents(bars[0], SortByKey(bars[1..]));
    }
  }

  lemma {:induction false} SortOrders(bars: seq<CachedBar>)
    requires KeysDiffer(bars)
    ensures Ordered(SortByKey(bars))
  {
    if bars != [] {
      SortOrders(bars[1..]);
      SortContents(bars[1..]);
      forall x | x in SortByKey(bars[1..]) ensures Key(x) != Key(bars[0]) {
        var i :| 0 <= i < |bars[1..]| && bars[1..][i] == x;
        assert x == bars[i + 1];
      }
      InsertKeepsOrder(bars[0], SortByKey(bars[1..]));
    }
  }

  /** One upsert keeps the order and replaces exactly the bars of its key. */
  lemma UpsertReplaces(bars: seq<CachedBar>, b: CachedBar)
    ensures Ordered(bars) ==> Ordered(Upserted(bars, b))
    ensures forall x :: x in Upserted(bars, b) <==> x == b || (x in bars && Key(x) != Key(b))
  {
    hide Key, Before, Ordered, SortByKey, Without;
    var kept := Without(bars, Key(b));
    WithoutContents(bars, Key(b));
    SortContents(kept + [b]);
    if Ordered(bars) {
      WithoutKeepsOrder(bars, Key(b));
      NewKeyDiffers(kept, b);
      SortOrders(kept + [b]);
    }
  }

  lemma NewKeyDiffers(kept: seq<CachedBar>, b: CachedBar)
    requires Ordered(kept) && forall x :: x in kept ==> Key(x) != Key(b)
    ensures KeysDiffer(kept + [b])
  {
    forall i, j | 0 <= i < j < |kept + [b]| ensures Key((kept + [b])[i]) != Key((kept + [b])[j]) {
      assert kept[i] in kept;
      if j < |kept| { assert Before(kept[i], kept[j]); }
    }
  }

  /** On a sorted list an upsert is an update of the map it lists. */
  lemma UpsertIsMapUpdate(bars: seq<CachedBar>, b: CachedBar, m: map<(nat, nat), CachedBar>)
    requires Ordered(bars) && Lists(bars, m)
    ensures Ordered(Upserted(bars, b)) && Lists(Upserted(bars, b), m[Key(b) := b])
  {
    hide Ordered, Upserted, Key;
    UpsertReplaces(bars, b);
  }

  /** After any writes the cache is sorted, has one bar per key, and holds the last write of each. */
  lemma {:induction false} CacheIsLastWriteWins(writes: seq<CachedBar>)
    ensures Ordered(AfterWrites(writes)) && Lists(AfterWrites(writes), LastWrites(writes))
  {
    if writes != [] {
      CacheIsLastWriteWins(writes[..|writes| - 1]);
      UpsertIsMapUpdate(AfterWrites(writes[..|writes| - 1]), writes[|writes| - 1],
                        LastWrites(writes[..|writes| - 1]));
    }
  }

  lemma FirstIsLeast(a: seq<CachedBar>, x: CachedBar)
    requires Ordered(a) && x in a
    ensures x == a[0] || Before(a[0], x)
  {
    var i :| 0 <= i < |a| && a[i] == x;
  }

  lemma {:induction false} OrderedListsAreUnique(a: seq<CachedBar>, b: seq<CachedBar>)
    requires Ordered(a) && Ordered(b)
    requires forall x :: x in a <==> x in b
    ensures a == b
  {
    assert b != [] ==> b[0] in b;
    if a != [] {
      assert a[0] in a && b[0] in b;
      FirstIsLeast(a, b[0]);
      FirstIsLeast(b, a[0]);
      forall x ensures x in a[1..] <==> x in b[1..] {
        TailMembers(a, x);
        TailMembers(b, x);
      }
      OrderedListsAreUnique(a[1..], b[1..]);
      assert a == [a[0]] + a[1..] && b == [b[0]] + b[1..];
    }
  }

  lemma TailMembers(a: seq<CachedBar>, x: CachedBar)
    requires Ordered(a) && a != []
    ensures x in a[1..] <==> x in a && x != a[0]
  {
    if x in a[1..] {
      var i :| 0 <= i < |a[1..]| && a[1..][i] == x;
      assert Before(a[0], a[i + 1]);
    }
  }

  /** The order of writes under different keys does not matter. */
  lemma CacheDependsOnLastWritesOnly(v: seq<CachedBar>, w: seq<CachedBar>)
    requires LastWrites(v) == LastWrites(w)
    ensures AfterWrites(v) == AfterWrites(w)
  {
    CacheIsLastWriteWins(v);
    CacheIsLastWriteWins(w);
    OrderedListsAreUnique(AfterWrites(v), AfterWrites(w));
  }

  function OfInterval(bars: seq<CachedBar>, n: nat): seq<CachedBar> {
    if bars == [] then []
    else (if bars[0].intervalMin == n then [bars[0]] else []) + OfInterval(bars[1..], n)
  }

  lemma {:induction false} OfIntervalContents(bars: seq<CachedBar>, n: nat)
    ensures forall b :: b in OfInterval(bars, n) <==> b in bars && b.intervalMin == n
  {
    if bars != [] {
      OfIntervalContents(bars[1..], n);
    }
  }

  lemma {:induction false} OfIntervalKeepsOrder(bars: seq<CachedBar>, n: nat)
    requires Ordered(bars)
    ensures Ordered(OfInterval(bars, n))
  {
    if bars != [] {
      var rest := OfInterval(bars[1..], n);
      OfIntervalKeepsOrder(bars[1..], n);
      OfIntervalContents(bars[1..], n);
      forall j | 0 <= j < |rest| ensures Before(bars[0], rest[j]) {
        assert rest[j] in bars[1..];
      }
    }
  }

  /** Writing a bar of one granularity leaves the list of every other granularity as it was. */
  lemma OtherGranularitiesUntouched(writes: seq<CachedBar>, b: CachedBar, n: nat)
    requires b.intervalMin != n
    ensures OfInterval(AfterWrites(writes + [b]), n) == OfInterval(AfterWrites(writes), n)
  {
    var before, after := AfterWrites(writes), AfterWrites(writes + [b]);
    assert (writes + [b])[..|writes|] == writes;
    CacheIsLastWriteWins(writes);
    CacheIsLastWriteWins(writes + [b]);
    OfIntervalContents(before, n);
    OfIntervalContents(after, n);
    OfIntervalKeepsOrder(before, n);
    OfIntervalKeepsOrder(after, n);
    OrderedListsAreUnique(OfInterval(after, n), OfInterval(before, n));
  }

  /** After any writes the list is in the order of time, and of granularity within a time. */
  lemma CacheIsInTimeOrder(writes: seq<CachedBar>, i: nat, j: nat)
    requires i < j < |AfterWrites(writes)|
    ensures var (a, b) := (AfterWrites(writes)[i], AfterWrites(writes)[j]);
            a.time <= b.time && (a.time == b.time ==> a.intervalMin < b.intervalMin)
  {
    hide AfterWrites;
    CacheIsLastWriteWins(writes);
    assert Before(AfterWrites(writes)[i], AfterWrites(writes)[j]);
  }
}

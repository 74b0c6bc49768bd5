/**
 The live aggregator: executions of many stocks arrive interleaved and are turned into
 one-minute candles, one stock at a time; sixty idle seconds close every open candle.
 */
module TickAggregation {
  import opened Arithmetic
  import opened Candles

  /** An execution notice; `slot` is hour * 60 + minute of its time stamp. */
  datatype Tick = Tick(code: string, slot: nat, price: int, volume: nat)

  datatype Message = Execution(tick: Tick) | IdleMinute | OtherMessage

  /** The candle being built. */
  datatype Partial = Partial(
    code: string, slot: nat, open: int, high: int, low: int, close: int, volume: int, tickCount: nat)
  {
    function Updated(t: Tick): Partial {
      this.(high := Max(high, t.price), low := Min(low, t.price), close := t.price,
            volume := volume + t.volume, tickCount := tickCount + 1)
    }
  }

  datatype Completed = Completed(
    code: string, slot: nat, open: int, high: int, low: int, close: int, volume: int,
    isRealtime: bool, intervalMin: nat)

  function Started(t: Tick): Partial {
    Partial(t.code, t.slot, t.price, t.price, t.price, t.price, t.volume, 1)
  }

  function Closed(p: Partial): Completed {
    Completed(p.code, p.slot, p.open, p.high, p.low, p.close, p.volume, true, 1)
  }

  /** 09:00 to 15:30, both inclusive. */
  predicate InHours(slot: nat) {
    540 <= slot <= 930
  }

  /** The two maps of the aggregator. */
  datatype Book = Book(partials: map<string, Partial>, completed: map<string, seq<Completed>>)
  {
    function History(code: string): seq<Completed> {
      if code in completed then completed[code] else []
    }
  }

  function Appended(m: map<string, seq<Completed>>, code: string, c: Completed): map<string, seq<Completed>> {
    m[code := (if code in m then m[code] else []) + [c]]
  }

  function Received(b: Book, t: Tick): Book {
    if !InHours(t.slot) then b
    else if t.code in b.partials then
      if b.partials[t.code].slot == t.slot then
        b.(partials := b.partials[t.code := b.partials[t.code].Updated(t)])
      else
        Book(b.partials[t.code := Started(t)], Appended(b.completed, t.code, Closed(b.partials[t.code])))
    else b.(partials := b.partials[t.code := Started(t)])
  }

  /** The histories once the open candles of the given stocks were closed. */
  function ClosedFor(b: Book, codes: set<string>): map<string, seq<Completed>>
    requires codes <= b.partials.Keys
  {
    map code | code in b.completed.Keys + codes ::
      b.History(code) + if code in codes then [Closed(b.partials[code])] else []
  }

  function Flushed(b: Book): Book {
    Book(map[], ClosedFor(b, b.partials.Keys))
  }

  lemma FlushNone(b: Book)
    ensures ClosedFor(b, {}) == b.completed
  {
    var l := ClosedFor(b, {});
    assert l.Keys == b.completed.Keys;
    forall k | k in l.Keys ensures l[k] == b.completed[k] {
      assert b.completed[k] + [] == b.completed[k];
    }
  }

  lemma FlushOne(b: Book, codes: set<string>, code: string)
    requires codes <= b.partials.Keys && code in b.partials && code !in codes
    ensures Appended(ClosedFor(b, codes), code, Closed(b.partials[code])) == ClosedFor(b, codes + {code})
  {
    var l, r := Appended(ClosedFor(b, codes), code, Closed(b.partials[code])), ClosedFor(b, codes + {code});
    assert l.Keys == r.Keys;
    forall k | k in l.Keys ensures l[k] == r[k] {
      if k == code && k !in b.completed {
        assert l[k] == [] + [Closed(b.partials[k])];
      }
    }
  }

  function Handled(b: Book, m: Message): Book {
    match m
    case Execution(t) => Received(b, t)
    case IdleMinute => Flushed(b)
    case OtherMessage => b
  }

  /** The book after some messages, the histories having held some bars before. */
  function AfterFrom(held: map<string, seq<Completed>>, ms: seq<Message>): Book {
    if ms == [] then Book(map[], held) else Handled(AfterFrom(held, ms[..|ms| - 1]), ms[|ms| - 1])
  }

  function After(ms: seq<Message>): Book {
    AfterFrom(map[], ms)
  }

  class CandleAggregator {
    var partials: map<string, Partial>
    var completed: map<string, seq<Completed>>

    function State(): Book
      reads this
    {
      Book(partials, completed)
    }

    constructor ()
      ensures State() == After([])
    {
      partials, completed := map[], map[];
    }

    method OnTick(t: Tick)
      modifies this
      ensures State() == Received(old(State()), t)
    {
      if !InHours(t.slot) {
        return;
      }
      if t.code in partials {
        var partial := partials[t.code];
        if partial.slot == t.slot {
          partials := partials[t.code := partial.Updated(t)];
        } else {
          completed := Appended(completed, t.code, Closed(partial));
          partials := partials[t.code := Started(t)];
        }
      } else {
        partials := partials[t.code := Started(t)];
      }
    }

    /** Drains the open candles in whatever order the map yields them. */
    method OnIdleMinute()
      modifies this
      ensures State() == Flushed(old(State()))
    {
      ghost var before := State();
      ghost var done: set<string> := {};
      FlushNone(before);
      while partials.Keys != {}
        invariant done <= before.partials.Keys
        invariant partials == before.partials - done
        invariant completed == ClosedFor(before, done)
        decreases before.partials.Keys - done
      {
        var code :| code in partials.Keys;
        FlushOne(before, done, code);
        completed := Appended(completed, code, Closed(partials[code]));
        partials := partials - {code};
        done := done + {code};
      }
      assert done == before.partials.Keys;
    }

    /** The receive loop, up to the closing of the channel.  It starts without open candles, on whatever bars are held. */
    method Consume(ms: seq<Message>)
      modifies this
      ensures State() == AfterFrom(old(completed), ms)
    {
      hide Received, Flushed;
      partials := map[];
      for i := 0 to |ms|
        invariant State() == AfterFrom(old(completed), ms[..i])
      {
        assert ms[..i + 1][..i] == ms[..i];
        match ms[i] {
          case Execution(t) => OnTick(t);
          case IdleMinute => OnIdleMinute();
          case OtherMessage =>
        }
      }
      assert ms[..|ms|] == ms;
    }
  }

  // ---------------------------------------------------------------------------
  // The batch view of one stock
  // ---------------------------------------------------------------------------

  function TickCandle(t: Tick): Candle
    requires InHours(t.slot)
  {
    Candle(0, t.slot * 60, t.price, t.price, t.price, t.price, t.volume)
  }

  /** The in-hours ticks of a stock since the last idle minute. */
  function OpenTicks(ms: seq<Message>, code: string): seq<Candle> {
    if ms == [] then []
    else
      match ms[|ms| - 1]
      case Execution(t) =>
        OpenTicks(ms[..|ms| - 1], code) + if t.code == code && InHours(t.slot) then [TickCandle(t)] else []
      case IdleMinute => []
      case OtherMessage => OpenTicks(ms[..|ms| - 1], code)
  }

  /** The in-hours ticks of a stock, one piece for each idle minute that ended it. */
  function CutTicks(ms: seq<Message>, code: string): seq<seq<Candle>> {
    if ms == [] then []
    else
      var before := CutTicks(ms[..|ms| - 1], code);
      if ms[|ms| - 1].IdleMinute? then before + [OpenTicks(ms[..|ms| - 1], code)] else before
  }

  /** Each piece grouped by minute on its own. */
  function CutBars(pieces: seq<seq<Candle>>): seq<Candle> {
    if pieces == [] then [] else CutBars(pieces[..|pieces| - 1]) + Fold(pieces[|pieces| - 1], 1)
  }

  function BatchBars(ms: seq<Message>, code: string): seq<Candle> {
    CutBars(CutTicks(ms, code)) + Fold(OpenTicks(ms, code), 1)
  }

  function PartialCandle(p: Partial): Candle
    requires InHours(p.slot)
  {
    Candle(0, p.slot * 60, p.open, p.high, p.low, p.close, p.volume)
  }

  ghost predicate IsBar(c: Completed, code: string, b: Candle) {
    && InHours(c.slot)
    && c.code == code && c.isRealtime && c.intervalMin == 1
    && b == Candle(0, c.slot * 60, c.open, c.high, c.low, c.close, c.volume)
  }

  ghost predicate AreBars(cs: seq<Completed>, code: string, bars: seq<Candle>) {
    |cs| == |bars| && forall i :: 0 <= i < |cs| ==> IsBar(cs[i], code, bars[i])
  }

  /** The streaming book shows the batch bars of a stock: all completed, or all but the open last one. */
  ghost predicate Shows(b: Book, code: string, cut: seq<Candle>, open: seq<Candle>) {
    if code in b.partials then
      && open != []
      && InHours(b.partials[code].slot)
      && b.partials[code].code == code
      && PartialCandle(b.partials[code]) == open[|open| - 1]
      && AreBars(b.History(code), code, cut + open[..|open| - 1])
    else
      open == [] && AreBars(b.History(code), code, cut)
  }

  lemma SameMinute(a: Candle, slot: nat, t: Tick)
    requires InHours(slot) && InHours(t.slot)
    requires a.date == 0 && a.time == slot * 60
    ensures SlotKey(a, 1) == SlotKey(TickCandle(t), 1) <==> slot == t.slot
  {
    assert MinutesFromOpen(a.time) == slot - 540;
    assert MinutesFromOpen(t.slot * 60) == t.slot - 540;
  }

  /**
   For every interleaving of messages, every stock's completed candles followed by its open
   candle are the batch grouping by minute of that stock's own in-hours ticks, where an idle
   minute does no more than cut the list of ticks.
   */
  lemma {:induction false} StreamShowsBatch(ms: seq<Message>, code: string)
    ensures Shows(After(ms), code, CutBars(CutTicks(ms, code)), Fold(OpenTicks(ms, code), 1))
  {
    hide Shows, Fold, Received, Flushed, Book.History;
    if ms == [] {
      NothingShown(code);
    } else {
      var before := ms[..|ms| - 1];
      StreamShowsBatch(before, code);
      match ms[|ms| - 1]
      case Execution(t) =>
        if t.code == code && InHours(t.slot) {
          TickStep(After(before), t, CutBars(CutTicks(before, code)), OpenTicks(before, code));
        } else {
          assert OpenTicks(before, code) + [] == OpenTicks(before, code);
          OtherTickShows(After(before), t, code, CutBars(CutTicks(before, code)), Fold(OpenTicks(before, code), 1));
        }
      case IdleMinute =>
        NothingFolded();
        FlushStep(After(before), code, CutTicks(before, code), OpenTicks(before, code));
      case OtherMessage =>
    }
  }

  /** Bars held before stay in front of what the messages add, and change nothing else. */
  lemma {:induction false} HeldBarsStayInFront(held: map<string, seq<Completed>>, ms: seq<Message>, code: string)
    ensures AfterFrom(held, ms).partials == After(ms).partials
    ensures AfterFrom(held, ms).History(code) == Book(map[], held).History(code) + After(ms).History(code)
  {
    hide Handled, Book.History;
    if ms == [] {
      NothingHeld(held, code);
    } else {
      HeldBarsStayInFront(held, ms[..|ms| - 1], code);
      HandledBehind(AfterFrom(held, ms[..|ms| - 1]), After(ms[..|ms| - 1]), ms[|ms| - 1],
                    Book(map[], held).History(code), code);
    }
  }

  lemma NothingHeld(held: map<string, seq<Completed>>, code: string)
    ensures Book(map[], held).History(code) == Book(map[], held).History(code) + Book(map[], map[]).History(code)
  {
  }

  lemma HandledBehind(b: Book, c: Book, m: Message, front: seq<Completed>, code: string)
    requires b.partials == c.partials && b.History(code) == front + c.History(code)
    ensures Handled(b, m).partials == Handled(c, m).partials
    ensures Handled(b, m).History(code) == front + Handled(c, m).History(code)
  {
    match m
    case Execution(t) =>
      hide Received;
      SamePartials(b, c, t);
      HistoryAfterTick(b, t, code);
      HistoryAfterTick(c, t, code);
    case IdleMinute =>
      hide Flushed;
      HistoryAfterFlush(b, code);
      HistoryAfterFlush(c, code);
      NothingOpenAfterFlush(b);
      NothingOpenAfterFlush(c);
    case OtherMessage =>
  }

  lemma SamePartials(b: Book, c: Book, t: Tick)
    requires b.partials == c.partials
    ensures Received(b, t).partials == Received(c, t).partials
  {
  }

  lemma NothingOpenAfterFlush(b: Book)
    ensures Flushed(b).partials == map[]
  {
  }

  lemma HistoryAfterTick(b: Book, t: Tick, code: string)
    ensures Received(b, t).History(code)
         == b.History(code)
            + if InHours(t.slot) && t.code == code && code in b.partials && b.partials[code].slot != t.slot
              then [Closed(b.partials[code])] else []
  {
  }

  lemma NothingShown(code: string)
    ensures Shows(Book(map[], map[]), code, [], Fold([], 1))
  {
  }

  lemma NothingFolded()
    ensures Fold([], 1) == []
  {
  }

  lemma OtherTickShows(b: Book, t: Tick, code: string, cut: seq<Candle>, open: seq<Candle>)
    requires t.code != code || !InHours(t.slot)
    requires Shows(b, code, cut, open)
    ensures Shows(Received(b, t), code, cut, open)
  {
    OtherTick(b, t, code);
    hide Received, Book.History;
  }

  lemma OtherTick(b: Book, t: Tick, code: string)
    requires t.code != code || !InHours(t.slot)
    ensures var r := Received(b, t);
            && r.History(code) == b.History(code)
            && (code in r.partials <==> code in b.partials)
            && (code in b.partials ==> r.partials[code] == b.partials[code])
  {
  }

  lemma TickStep(b: Book, t: Tick, cut: seq<Candle>, ticks: seq<Candle>)
    requires InHours(t.slot) && Shows(b, t.code, cut, Fold(ticks, 1))
    ensures Shows(Received(b, t), t.code, cut, Fold(ticks + [TickCandle(t)], 1))
  {
    var open, c := Fold(ticks, 1), TickCandle(t);
    FoldSnoc(ticks, c, 1);
    if t.code in b.partials {
      SameMinute(open[|open| - 1], b.partials[t.code].slot, t);
      if b.partials[t.code].slot == t.slot {
        SameMinuteTick(b, t, cut, open);
      } else {
        NextMinuteTick(b, t, cut, open);
      }
    } else {
      FirstTick(b, t, cut);
    }
  }

  lemma SameMinuteTick(b: Book, t: Tick, cut: seq<Candle>, open: seq<Candle>)
    requires InHours(t.slot) && Shows(b, t.code, cut, open)
    requires t.code in b.partials && b.partials[t.code].slot == t.slot
    ensures Shows(Received(b, t), t.code, cut, open[..|open| - 1] + [Merge(open[|open| - 1], TickCandle(t))])
  {
    var longer := open[..|open| - 1] + [Merge(open[|open| - 1], TickCandle(t))];
    assert longer[..|longer| - 1] == open[..|open| - 1];
    assert Received(b, t).History(t.code) == b.History(t.code);
  }

  lemma NextMinuteTick(b: Book, t: Tick, cut: seq<Candle>, open: seq<Candle>)
    requires InHours(t.slot) && Shows(b, t.code, cut, open)
    requires t.code in b.partials && b.partials[t.code].slot != t.slot
    ensures Shows(Received(b, t), t.code, cut, open + [TickCandle(t)])
  {
    var p, r, longer := b.partials[t.code], Received(b, t), open + [TickCandle(t)];
    assert longer[..|longer| - 1] == open;
    assert r.History(t.code) == b.History(t.code) + [Closed(p)];
    assert IsBar(Closed(p), t.code, open[|open| - 1]);
    assert cut + open == (cut + open[..|open| - 1]) + [open[|open| - 1]];
  }

  lemma FirstTick(b: Book, t: Tick, cut: seq<Candle>)
    requires InHours(t.slot) && Shows(b, t.code, cut, [])
    requires t.code !in b.partials
    ensures Shows(Received(b, t), t.code, cut, [] + [TickCandle(t)])
  {
    var longer := [] + [TickCandle(t)];
    assert cut + longer[..|longer| - 1] == cut;
    assert Received(b, t).History(t.code) == b.History(t.code);
  }

  lemma HistoryAfterFlush(b: Book, code: string)
    ensures Flushed(b).History(code)
         == b.History(code) + if code in b.partials then [Closed(b.partials[code])] else []
    ensures code !in Flushed(b).partials
  {
    if code !in b.partials && code !in b.completed {
      assert b.History(code) + [] == [];
    }
  }

  lemma FlushStep(b: Book, code: string, cut: seq<seq<Candle>>, ticks: seq<Candle>)
    requires Shows(b, code, CutBars(cut), Fold(ticks, 1))
    ensures Shows(Flushed(b), code, CutBars(cut + [ticks]), [])
  {
    var pieces := cut + [ticks];
    assert pieces[..|pieces| - 1] == cut;
    HistoryAfterFlush(b, code);
    CloseOpenBar(b, code, CutBars(cut), Fold(ticks, 1));
  }

  lemma CloseOpenBar(b: Book, code: string, cut: seq<Candle>, open: seq<Candle>)
    requires Shows(b, code, cut, open)
    ensures AreBars(b.History(code) + if code in b.partials then [Closed(b.partials[code])] else [], code, cut + open)
  {
    if code in b.partials {
      var p := b.partials[code];
      assert IsBar(Closed(p), code, open[|open| - 1]);
      assert cut + open == (cut + open[..|open| - 1]) + [open[|open| - 1]];
    } else {
      assert cut + [] == cut;
    }
  }

  // ---------------------------------------------------------------------------
  // Consequences for the whole day
  // ---------------------------------------------------------------------------

  /** All in-hours ticks of a stock, idle minutes ignored. */
  function AllTicks(ms: seq<Message>, code: string): seq<Candle> {
    if ms == [] then []
    else
      AllTicks(ms[..|ms| - 1], code)
      + match ms[|ms| - 1]
        case Execution(t) => if t.code == code && InHours(t.slot) then [TickCandle(t)] else []
        case _ => []
  }

  function Joined(pieces: seq<seq<Candle>>): seq<Candle> {
    if pieces == [] then [] else Joined(pieces[..|pieces| - 1]) + pieces[|pieces| - 1]
  }

  lemma {:induction false} PiecesAreAllTicks(ms: seq<Message>, code: string)
    ensures Joined(CutTicks(ms, code)) + OpenTicks(ms, code) == AllTicks(ms, code)
  {
    if ms != [] {
      var before := ms[..|ms| - 1];
      PiecesAreAllTicks(before, code);
      if ms[|ms| - 1].IdleMinute? {
        var pieces := CutTicks(before, code) + [OpenTicks(before, code)];
        assert pieces[..|pieces| - 1] == CutTicks(before, code);
      } else if ms[|ms| - 1].Execution? {
        var t := ms[|ms| - 1].tick;
        var x := if t.code == code && InHours(t.slot) then [TickCandle(t)] else [];
        assert Joined(CutTicks(before, code)) + (OpenTicks(before, code) + x)
            == (Joined(CutTicks(before, code)) + OpenTicks(before, code)) + x;
      }
    }
  }

  /** Minute bars may replace the ticks behind any prefix, and the ticks of a middle piece, too. */
  lemma OneCutVanishes(front: seq<Candle>, piece: seq<Candle>, tail: seq<Candle>, n: nat)
    requires Coarser(1, n)
    ensures Fold(front + (Fold(piece, 1) + Fold(tail, 1)), n) == Fold(front + Fold(piece + tail, 1), n)
  {
    hide Fold, SlotKey;
    FoldOfFold(tail, 1, n);
    FoldOfFoldedPrefix(piece, Fold(tail, 1), 1, n);
    FoldDependsOnFoldedTail(piece, Fold(tail, 1), tail, n);
    FoldOfFold(piece + tail, 1, n);
    FoldDependsOnFoldedTail(front, Fold(piece, 1) + Fold(tail, 1), Fold(piece + tail, 1), n);
  }

  /** The cuts made by idle minutes vanish once the bars are aggregated to a coarser interval. */
  lemma {:induction false} CutsVanish(pieces: seq<seq<Candle>>, tail: seq<Candle>, n: nat)
    requires Coarser(1, n)
    ensures Fold(CutBars(pieces) + Fold(tail, 1), n) == Fold(Joined(pieces) + tail, n)
  {
    hide Fold, SlotKey, CutBars, Joined;
    if pieces == [] {
      NoPieces();
      assert [] + Fold(tail, 1) == Fold(tail, 1) && [] + tail == tail;
      FoldOfFold(tail, 1, n);
    } else {
      var front, last := pieces[..|pieces| - 1], pieces[|pieces| - 1];
      LastPiece(pieces, tail);
      CutsVanish(front, last + tail, n);
      OneCutVanishes(CutBars(front), last, tail, n);
    }
  }

  lemma NoPieces()
    ensures CutBars([]) == [] && Joined([]) == []
  {
  }

  lemma LastPiece(pieces: seq<seq<Candle>>, tail: seq<Candle>)
    requires pieces != []
    ensures var (front, last) := (pieces[..|pieces| - 1], pieces[|pieces| - 1]);
            && CutBars(pieces) + Fold(tail, 1) == CutBars(front) + (Fold(last, 1) + Fold(tail, 1))
            && Joined(pieces) + tail == Joined(front) + (last + tail)
  {
    hide *;
    var front, last := pieces[..|pieces| - 1], pieces[|pieces| - 1];
    LastPieceUnfolds(pieces);
    Associate(CutBars(front), Fold(last, 1), Fold(tail, 1));
    Associate(Joined(front), last, tail);
  }

  lemma LastPieceUnfolds(pieces: seq<seq<Candle>>)
    requires pieces != []
    ensures var (front, last) := (pieces[..|pieces| - 1], pieces[|pieces| - 1]);
            CutBars(pieces) == CutBars(front) + Fold(last, 1) && Joined(pieces) == Joined(front) + last
  {
    hide Fold;
  }

  lemma Associate(a: seq<Candle>, b: seq<Candle>, c: seq<Candle>)
    ensures (a + b) + c == a + (b + c)
  {
  }

  /**
   Streaming into minute bars and aggregating those to n minutes gives the n-minute bars of
   the raw ticks, however often an idle minute interrupted the stream.
   */
  lemma StreamThenAggregate(ms: seq<Message>, code: string, n: nat)
    requires n >= 2
    ensures Aggregated(BatchBars(ms, code), n) == Aggregated(AllTicks(ms, code), n)
  {
    MultiplesAreCoarser(1, n);
    CutsVanish(CutTicks(ms, code), OpenTicks(ms, code), n);
    PiecesAreAllTicks(ms, code);
    FoldIsBarsOfRuns(BatchBars(ms, code), n);
    FoldIsBarsOfRuns(AllTicks(ms, code), n);
  }

  lemma {:induction false} CutBarsKeepVolume(pieces: seq<seq<Candle>>)
    ensures VolumeOf(CutBars(pieces)) == VolumeOf(Joined(pieces))
  {
    if pieces != [] {
      var front, last := pieces[..|pieces| - 1], pieces[|pieces| - 1];
      CutBarsKeepVolume(front);
      FoldKeepsVolume(last, 1);
      VolumeSplits(CutBars(front), Fold(last, 1));
      VolumeSplits(Joined(front), last);
    }
  }

  function CompletedVolume(cs: seq<Completed>): int {
    if cs == [] then 0 else cs[0].volume + CompletedVolume(cs[1..])
  }

  lemma {:induction false} BarVolume(cs: seq<Completed>, code: string, bars: seq<Candle>)
    requires AreBars(cs, code, bars)
    ensures CompletedVolume(cs) == VolumeOf(bars)
  {
    if cs != [] {
      assert IsBar(cs[0], code, bars[0]);
      forall i | 0 <= i < |cs[1..]| ensures IsBar(cs[1..][i], code, bars[1..][i]) {
        assert IsBar(cs[i + 1], code, bars[i + 1]);
      }
      BarVolume(cs[1..], code, bars[1..]);
    }
  }

  /** The traded volume of a stock's in-hours ticks is all in its candles. */
  lemma VolumeIsConserved(ms: seq<Message>, code: string)
    ensures var b := After(ms);
            CompletedVolume(b.History(code)) + (if code in b.partials then b.partials[code].volume else 0)
            == VolumeOf(AllTicks(ms, code))
  {
    hide After, CutBars, CutTicks, OpenTicks, AllTicks, Joined, Fold, VolumeOf, CompletedVolume, Shows;
    var b, cut, open := After(ms), CutBars(CutTicks(ms, code)), Fold(OpenTicks(ms, code), 1);
    StreamShowsBatch(ms, code);
    PiecesAreAllTicks(ms, code);
    CutBarsKeepVolume(CutTicks(ms, code));
    FoldKeepsVolume(OpenTicks(ms, code), 1);
    VolumeSplits(Joined(CutTicks(ms, code)), OpenTicks(ms, code));
    ShownVolume(b, code, cut, open);
  }

  /** A book that shows some bars holds their volume. */
  lemma ShownVolume(b: Book, code: string, cut: seq<Candle>, open: seq<Candle>)
    requires Shows(b, code, cut, open)
    ensures CompletedVolume(b.History(code)) + (if code in b.partials then b.partials[code].volume else 0)
         == VolumeOf(cut) + VolumeOf(open)
  {
    hide VolumeOf, CompletedVolume, AreBars, Book.History;
    NoVolume();
    if code in b.partials {
      var front, last := open[..|open| - 1], open[|open| - 1];
      BarVolume(b.History(code), code, cut + front);
      VolumeSplits(cut, front);
      VolumeSplits(front, [last]);
      OneVolume(last);
      assert open == front + [last];
    } else {
      BarVolume(b.History(code), code, cut);
    }
  }

  lemma NoVolume()
    ensures VolumeOf([]) == 0
  {
  }

  lemma OneVolume(c: Candle)
    ensures VolumeOf([c]) == c.volume
  {
    assert [c][1..] == [];
  }

  /** Ticks count from 09:00 to 15:30, both minutes included. */
  lemma HoursAreInclusive(hour: nat, minute: nat)
    requires minute < 60
    ensures InHours(hour * 60 + minute) <==> 9 <= hour && (hour < 15 || (hour == 15 && minute <= 30))
  {
  }
}

/**
 The actor together with its saved row, over whole histories of events, exit markings,
 crashes and restarts.  The row is written when the actor issues `PersistState` (on entering
 manual only if it exists), marked when an exit order went out, and rewritten by the restart
 that follows a crash.
 */
module CrashSafety {
  import opened Wrappers
  import opened Trades
  import opened ExecutionActor
  import opened RestartRecovery

  datatype Position = Position(
    orderNo: string, side: Side, entryPrice: int, stopLoss: int, takeProfit: int,
    quantity: nat, tpOrderNo: Option<string>)

  datatype World = World(actor: State, saved: Option<SavedState>)

  datatype Label =
    | Observe(event: Event, position: Position, dropFlatRow: bool)
    | MarkExitPending
    | CrashAndRestart(held: nat, failure: Option<string>, avgPrice: Option<int>, query: QuerySummary, stale: bool)

  const START := World(Flat, None)

  /** The row written for a state; a flat state has an empty row or none at all. */
  function RowFor(s: State, p: Position, dropFlatRow: bool): Option<SavedState> {
    match s
    case Flat | SignalArmed | Degraded => if dropFlatRow then None else Some(SavedFlat)
    case EntryPending => Some(SavedEntryPending(p.orderNo, p.side, p.entryPrice, p.quantity))
    case EntryPartial => Some(SavedEntryPartial(p.orderNo, p.side, p.entryPrice, p.quantity))
    case Open => Some(SavedOpen(p.side, p.entryPrice, p.stopLoss, p.takeProfit, p.quantity, p.tpOrderNo))
    case ExitPending => Some(SavedExitPending(p.side, p.entryPrice, p.stopLoss, p.takeProfit, p.quantity))
    case ExitPartial => Some(SavedExitPartial(p.side, p.entryPrice, p.stopLoss, p.takeProfit, p.quantity))
    case ManualIntervention => Some(SavedManual(p.side, p.entryPrice, p.stopLoss, p.takeProfit, p.quantity))
  }

  /** The columns of an existing row; those a variant does not keep are empty. */
  function Columns(r: SavedState): Position {
    match r
    case SavedFlat => Position("", Long, 0, 0, 0, 0, None)
    case SavedEntryPending(no, side, entry, qty) => Position(no, side, entry, 0, 0, qty, None)
    case SavedEntryPartial(no, side, entry, qty) => Position(no, side, entry, 0, 0, qty, None)
    case SavedOpen(side, entry, stop, target, qty, tp) => Position("", side, entry, stop, target, qty, tp)
    case SavedExitPending(side, entry, stop, target, qty) => Position("", side, entry, stop, target, qty, None)
    case SavedExitPartial(side, entry, stop, target, qty) => Position("", side, entry, stop, target, qty, None)
    case SavedManual(side, entry, stop, target, qty) => Position("", side, entry, stop, target, qty, None)
  }

  /** An SQL update of the state column: it touches an existing row and creates none. */
  function UpdateRow(saved: Option<SavedState>, s: State): Option<SavedState> {
    match saved
    case None => None
    case Some(r) => RowFor(s, Columns(r), false)
  }

  /** What `PersistState` leaves: entering manual only updates a row, the other states write one. */
  function Written(saved: Option<SavedState>, s: State, p: Position, dropFlatRow: bool): Option<SavedState> {
    if s == ManualIntervention then UpdateRow(saved, s) else RowFor(s, p, dropFlatRow)
  }

  function Snapshot(held: nat, failure: Option<string>, avgPrice: Option<int>): Holdings {
    match failure
    case Some(reason) => LookupFailed(reason)
    case None => if held == 0 then NoShares else Present(held, avgPrice)
  }

  function Restart(w: World, held: nat, failure: Option<string>, avgPrice: Option<int>,
                   query: QuerySummary, stale: bool): RestartAction
  {
    var input := RestartInput(w.saved, Snapshot(held, failure, avgPrice), query, stale);
    RestartDecision(input);
    Classify(input).value
  }

  /** A manual restart updates the row, a cleanup deletes it, a restored position keeps it. */
  function AfterRestart(w: World, a: RestartAction): World {
    if a.RequiresManual() then World(ManualIntervention, UpdateRow(w.saved, ManualIntervention))
    else if a.IsCleanup() then World(Flat, None)
    else World(Open, w.saved)
  }

  function Step(w: World, l: Label): World {
    match l
    case Observe(e, p, drop) =>
      var s := Next(w.actor, e);
      World(s, if PersistState in Commands(w.actor, e) then Written(w.saved, s, p, drop) else w.saved)
    case MarkExitPending =>
      if w.actor == ExitPending then w.(saved := UpdateRow(w.saved, ExitPending)) else w
    case CrashAndRestart(held, failure, avg, query, stale) =>
      AfterRestart(w, Restart(w, held, failure, avg, query, stale))
  }

  function After(w: World, ls: seq<Label>): World {
    if ls == [] then w else Step(After(w, ls[..|ls| - 1]), ls[|ls| - 1])
  }

  // ---------------------------------------------------------------------------
  // The lag between actor and row
  // ---------------------------------------------------------------------------

  datatype RowKind = NoRow | FlatRow | EntryRow | PartialRow | OpenRow | ExitRow | ExitPartialRow | ManualRow

  function KindOf(saved: Option<SavedState>): RowKind {
    match saved
    case None => NoRow
    case Some(SavedFlat) => FlatRow
    case Some(SavedEntryPending(_, _, _, _)) => EntryRow
    case Some(SavedEntryPartial(_, _, _, _)) => PartialRow
    case Some(SavedOpen(_, _, _, _, _, _)) => OpenRow
    case Some(SavedExitPending(_, _, _, _, _)) => ExitRow
    case Some(SavedExitPartial(_, _, _, _, _)) => ExitPartialRow
    case Some(SavedManual(_, _, _, _, _)) => ManualRow
  }

  /** The rows that can lie under each actor state. */
  function RowsUnder(s: State): set<RowKind> {
    match s
    case Flat | SignalArmed => {NoRow, FlatRow, EntryRow}
    case EntryPending | EntryPartial => {EntryRow}
    case Open => {OpenRow}
    case ExitPending | ExitPartial => {OpenRow, ExitRow}
    case ManualIntervention => {ManualRow, NoRow}
    case Degraded => {}
  }

  predicate InLagPattern(w: World) {
    KindOf(w.saved) in RowsUnder(w.actor)
  }

  ghost predicate Reachable(s: State, k: RowKind) {
    exists ls :: Reaches(ls, s, k)
  }

  ghost predicate Reaches(ls: seq<Label>, s: State, k: RowKind) {
    After(START, ls).actor == s && KindOf(After(START, ls).saved) == k
  }

  lemma {:induction false} LagPatternHolds(ls: seq<Label>)
    ensures InLagPattern(After(START, ls))
  {
    if ls != [] {
      LagPatternHolds(ls[..|ls| - 1]);
      StepKeepsLagPattern(After(START, ls[..|ls| - 1]), ls[|ls| - 1]);
    }
  }

  lemma StepKeepsLagPattern(w: World, l: Label)
    requires InLagPattern(w)
    ensures InLagPattern(Step(w, l))
  {
    match l
    case Observe(e, p, drop) =>
      PersistSites(w.actor, e);
    case MarkExitPending =>
    case CrashAndRestart(held, failure, avg, query, stale) =>
      RestartDecision(RestartInput(w.saved, Snapshot(held, failure, avg), query, stale));
  }

  /** Where rows are written: on entering these four states, except by timeout or zero fill into Flat. */
  lemma PersistSites(s: State, e: Event)
    ensures PersistState in Commands(s, e) <==>
              && Next(s, e) != s
              && (Next(s, e) in {EntryPending, Open, ManualIntervention}
                  || (Next(s, e) == Flat && s in {ExitPending, ExitPartial}))
  {
    var cs := Commands(s, e);
    if |cs| == 2 {
      assert cs[1] in cs;
    } else if |cs| == 1 {
      assert cs[0] in cs;
    }
  }

  const POS := Position("1", Long, 10000, 9900, 10250, 10, None)

  function Seen(e: Event): Label {
    Observe(e, POS, true)
  }

  const TO_PENDING: seq<Label> := [Seen(SignalTriggered("s"))] + [Seen(EntryOrderAccepted("1"))]
  const TO_OPEN: seq<Label> := TO_PENDING + [Seen(BalanceReconciled(10))]
  const TO_EXITING: seq<Label> := TO_OPEN + [Seen(ExitRequested("tp"))]

  /** A history ending in the given pair. */
  function HistoryTo(s: State, k: RowKind): seq<Label>
    requires k in RowsUnder(s)
    decreases if s == SignalArmed || s == ExitPartial then 1 else 0
  {
    match s
    case Flat =>
      if k == NoRow then []
      else if k == EntryRow then TO_PENDING + [Seen(TimeoutExpired(EntryFill))]
      else TO_EXITING + [Observe(BalanceReconciled(0), POS, false)]
    case SignalArmed => HistoryTo(Flat, k) + [Seen(SignalTriggered("s"))]
    case EntryPending => TO_PENDING
    case EntryPartial => TO_PENDING + [Seen(ExecutionNotice("1", 3, 10))]
    case Open => TO_OPEN
    case ExitPending => if k == OpenRow then TO_EXITING else TO_EXITING + [MarkExitPending]
    case ExitPartial => HistoryTo(ExitPending, k) + [Seen(BalanceReconciled(4))]
    case ManualIntervention =>
      if k == ManualRow then TO_PENDING + [Seen(ManualInterventionRequired("r"))]
      else [ORPHAN_FOUND]
  }

  lemma AfterSnoc(ls: seq<Label>, l: Label)
    ensures After(START, ls + [l]) == Step(After(START, ls), l)
  {
    assert (ls + [l])[..|ls + [l]| - 1] == ls;
  }

  /** The pattern is exact: a pair of actor state and row occurs in some history iff it is listed. */
  lemma LagPatternExact(s: State, k: RowKind)
    ensures Reachable(s, k) <==> k in RowsUnder(s)
  {
    if Reachable(s, k) {
      var ls :| Reaches(ls, s, k);
      LagPatternHolds(ls);
    }
    if k in RowsUnder(s) {
      ListedPairOccurs(s, k);
    }
  }

  lemma OneTrip()
    ensures After(START, TO_PENDING) == World(EntryPending, RowFor(EntryPending, POS, true))
    ensures After(START, TO_OPEN) == World(Open, RowFor(Open, POS, true))
    ensures After(START, TO_EXITING) == World(ExitPending, RowFor(Open, POS, true))
  {
    hide After, Step;
    var signal := Seen(SignalTriggered("s"));
    FirstStep(signal);
    AfterSnoc([signal], Seen(EntryOrderAccepted("1")));
    AfterSnoc(TO_PENDING, Seen(BalanceReconciled(10)));
    AfterSnoc(TO_OPEN, Seen(ExitRequested("tp")));
    StepsOfOneTrip();
  }

  lemma StepsOfOneTrip()
    ensures Step(START, Seen(SignalTriggered("s"))) == World(SignalArmed, None)
    ensures Step(World(SignalArmed, None), Seen(EntryOrderAccepted("1")))
         == World(EntryPending, RowFor(EntryPending, POS, true))
    ensures Step(World(EntryPending, RowFor(EntryPending, POS, true)), Seen(BalanceReconciled(10)))
         == World(Open, RowFor(Open, POS, true))
    ensures Step(World(Open, RowFor(Open, POS, true)), Seen(ExitRequested("tp")))
         == World(ExitPending, RowFor(Open, POS, true))
  {
  }

  /** One more label leads from one pair to the next. */
  lemma OneMore(ls: seq<Label>, l: Label, s: State, k: RowKind)
    requires var w := Step(After(START, ls), l); w.actor == s && KindOf(w.saved) == k
    ensures Reaches(ls + [l], s, k)
  {
    AfterSnoc(ls, l);
  }

  lemma ListedPairOccurs(s: State, k: RowKind)
    requires k in RowsUnder(s)
    ensures Reaches(HistoryTo(s, k), s, k)
    decreases if s == SignalArmed || s == ExitPartial then 1 else 0
  {
    hide After;
    match s
    case Flat => FlatPairsOccur(k);
    case SignalArmed =>
      FlatPairsOccur(k);
      OneMore(HistoryTo(Flat, k), Seen(SignalTriggered("s")), s, k);
    case EntryPending => OneTrip();
    case EntryPartial =>
      OneTrip();
      OneMore(TO_PENDING, Seen(ExecutionNotice("1", 3, 10)), s, k);
    case Open => OneTrip();
    case ExitPending => ExitPendingPairsOccur(k);
    case ExitPartial =>
      ExitPendingPairsOccur(k);
      OneMore(HistoryTo(ExitPending, k), Seen(BalanceReconciled(4)), s, k);
    case ManualIntervention => ManualPairsOccur(k);
  }

  lemma FlatPairsOccur(k: RowKind)
    requires k in RowsUnder(Flat)
    ensures Reaches(HistoryTo(Flat, k), Flat, k)
  {
    NoHistory();
    hide After;
    OneTrip();
    if k == EntryRow {
      OneMore(TO_PENDING, Seen(TimeoutExpired(EntryFill)), Flat, k);
    } else if k == FlatRow {
      OneMore(TO_EXITING, Observe(BalanceReconciled(0), POS, false), Flat, k);
    }
  }

  lemma NoHistory()
    ensures After(START, []) == START
  {
  }

  lemma ExitPendingPairsOccur(k: RowKind)
    requires k in RowsUnder(ExitPending)
    ensures Reaches(HistoryTo(ExitPending, k), ExitPending, k)
  {
    hide After;
    OneTrip();
    if k == ExitRow {
      OneMore(TO_EXITING, MarkExitPending, ExitPending, k);
    }
  }

  lemma ManualPairsOccur(k: RowKind)
    requires k in RowsUnder(ManualIntervention)
    ensures Reaches(HistoryTo(ManualIntervention, k), ManualIntervention, k)
  {
    hide After;
    if k == ManualRow {
      OneTrip();
      OneMore(TO_PENDING, Seen(ManualInterventionRequired("r")), ManualIntervention, k);
    } else {
      FirstStep(ORPHAN_FOUND);
    }
  }

  lemma FirstStep(l: Label)
    ensures After(START, [l]) == Step(START, l)
  {
    AfterSnoc([], l);
    assert [] + [l] == [l];
  }

  // ---------------------------------------------------------------------------
  // Safety of every crash
  // ---------------------------------------------------------------------------

  /**
   A crash after any history, with shares held: the restart is manual or restores exactly
   the shares held, the latter only for a position that was open or being closed.
   */
  lemma {:induction false} NoShareIsEverCleanedUp(ls: seq<Label>, held: nat, failure: Option<string>, avg: Option<int>,
                               query: QuerySummary, stale: bool)
    requires held > 0
    ensures var w := After(START, ls);
            var a := Restart(w, held, failure, avg, query, stale);
            && !a.IsCleanup()
            && (a.RequiresManual() || (a.OpenPositionRestore? && a.qty == held))
            && (a.OpenPositionRestore? ==> w.actor in {Open, ExitPending, ExitPartial})
            && (w.actor in {Flat, SignalArmed, EntryPending, EntryPartial, ManualIntervention} ==> a.RequiresManual())
            && (w.actor == Open && failure == None ==> a.OpenPositionRestore?)
            && (w.actor in {ExitPending, ExitPartial} && failure == None ==>
                  (a.OpenPositionRestore? <==> KindOf(w.saved) == OpenRow))
  {
    LagPatternHolds(ls);
    var w := After(START, ls);
    RestartDecision(RestartInput(w.saved, Snapshot(held, failure, avg), query, stale));
  }

  /** A row saved as manual stays manual, and so does the actor, through every later history. */
  lemma {:induction false} SavedManualIsForever(ls: seq<Label>, more: seq<Label>)
    requires KindOf(After(START, ls).saved) == ManualRow
    ensures var w := After(START, ls + more);
            w.actor == ManualIntervention && KindOf(w.saved) == ManualRow
  {
    if more == [] {
      assert ls + more == ls;
      LagPatternHolds(ls);
    } else {
      var front, l := more[..|more| - 1], more[|more| - 1];
      hide After, Apply;
      assert ls + more == (ls + front) + [l];
      SavedManualIsForever(ls, front);
      AfterSnoc(ls + front, l);
      ManualStep(After(START, ls + front), l);
    }
  }

  lemma ManualStep(w: World, l: Label)
    requires w.actor == ManualIntervention && KindOf(w.saved) == ManualRow
    ensures Step(w, l).actor == ManualIntervention && KindOf(Step(w, l).saved) == ManualRow
  {
    if l.CrashAndRestart? {
      RestartDecision(RestartInput(w.saved, Snapshot(l.held, l.failure, l.avgPrice), l.query, l.stale));
    }
  }

  /**
   An actor in manual intervention comes back manual after a crash, unless no row was ever
   written for it and the balance shows that its shares are gone.
   */
  lemma {:induction false} ManualSurvivesExactly(ls: seq<Label>, held: nat, failure: Option<string>, avg: Option<int>,
                              query: QuerySummary, stale: bool)
    requires After(START, ls).actor == ManualIntervention
    ensures var w := After(START, ls);
            Step(w, CrashAndRestart(held, failure, avg, query, stale)).actor == ManualIntervention
            <==> !(w.saved == None && failure == None && held == 0)
  {
    LagPatternHolds(ls);
    var w := After(START, ls);
    RestartDecision(RestartInput(w.saved, Snapshot(held, failure, avg), query, stale));
  }

  const ORPHAN_FOUND := CrashAndRestart(7, None, None, NotApplicable, false)
  const SHARES_GONE := CrashAndRestart(0, None, None, NotApplicable, false)

  /**
   Such a history: shares nobody has a row for make the restart manual, still without a row,
   and the next crash, with the shares gone, restarts into Flat.
   */
  lemma ManualIsForgotten()
    ensures After(START, [ORPHAN_FOUND]) == World(ManualIntervention, None)
    ensures After(START, [ORPHAN_FOUND] + [SHARES_GONE]) == World(Flat, None)
  {
    hide After;
    FirstStep(ORPHAN_FOUND);
    AfterSnoc([ORPHAN_FOUND], SHARES_GONE);
  }

  /** A manual request before any order leaves no row either, so a crash forgets it as well. */
  lemma ManualRequestIsForgotten(reason: string)
    ensures var asked := Seen(ManualInterventionRequired(reason));
            && After(START, [asked]) == World(ManualIntervention, None)
            && After(START, [asked] + [SHARES_GONE]) == World(Flat, None)
  {
    hide After;
    var asked := Seen(ManualInterventionRequired(reason));
    FirstStep(asked);
    AfterSnoc([asked], SHARES_GONE);
  }

  // ---------------------------------------------------------------------------
  // The position that comes back
  // ---------------------------------------------------------------------------

  /** The label brings the actor from another state into `s`. */
  predicate Enters(s: State, before: World, l: Label) {
    l.Observe? && before.actor != s && Next(before.actor, l.event) == s
  }

  /** The position with which a state was last entered by an event. */
  function LastEntered(s: State, ls: seq<Label>): Option<Position> {
    if ls == [] then None
    else
      var front, l := ls[..|ls| - 1], ls[|ls| - 1];
      if Enters(s, After(START, front), l) then Some(l.position) else LastEntered(s, front)
  }

  /** The row tells of the position last opened or ordered, in all its columns. */
  predicate RowTells(saved: Option<SavedState>, lastOpen: Option<Position>, lastOrder: Option<Position>) {
    match saved
    case Some(SavedOpen(side, entry, stop, target, qty, tp)) =>
      && lastOpen.Some?
      && var p := lastOpen.value;
         p.side == side && p.entryPrice == entry && p.stopLoss == stop && p.takeProfit == target && p.quantity == qty
         && p.tpOrderNo == tp
    case Some(SavedExitPending(side, entry, stop, target, qty)) =>
      && lastOpen.Some?
      && var p := lastOpen.value;
         p.side == side && p.entryPrice == entry && p.stopLoss == stop && p.takeProfit == target && p.quantity == qty
    case Some(SavedEntryPending(no, side, entry, qty)) =>
      && lastOrder.Some?
      && var p := lastOrder.value; p.orderNo == no && p.side == side && p.entryPrice == entry && p.quantity == qty
    case _ => true
  }

  /** After every history the row tells of the position last opened, or of the entry last ordered. */
  lemma {:induction false} RowTellsThePosition(ls: seq<Label>)
    ensures RowTells(After(START, ls).saved, LastEntered(Open, ls), LastEntered(EntryPending, ls))
  {
    hide RowTells, Step, Enters;
    if ls == [] {
      NothingToTell();
    } else {
      var front, l := ls[..|ls| - 1], ls[|ls| - 1];
      RowTellsThePosition(front);
      LagPatternHolds(front);
      StepTells(After(START, front), l, LastEntered(Open, front), LastEntered(EntryPending, front));
    }
  }

  lemma NothingToTell()
    ensures RowTells(None, None, None)
  {
  }

  lemma StepTells(w: World, l: Label, lastOpen: Option<Position>, lastOrder: Option<Position>)
    requires InLagPattern(w) && RowTells(w.saved, lastOpen, lastOrder)
    ensures RowTells(Step(w, l).saved,
                     if Enters(Open, w, l) then Some(l.position) else lastOpen,
                     if Enters(EntryPending, w, l) then Some(l.position) else lastOrder)
  {
    match l
    case Observe(e, p, drop) =>
      PersistSites(w.actor, e);
    case MarkExitPending =>
    case CrashAndRestart(held, failure, avg, query, stale) =>
      RestartDecision(RestartInput(w.saved, Snapshot(held, failure, avg), query, stale));
  }

  /**
   A position whose exit was not marked comes back from a crash as it was opened: with its side,
   entry, stop and target, and the number of shares actually held.
   */
  lemma OpenPositionComesBack(ls: seq<Label>, held: nat, avg: Option<int>, query: QuerySummary, stale: bool)
    requires held > 0
    requires KindOf(After(START, ls).saved) == OpenRow
    ensures LastEntered(Open, ls).Some?
    ensures var (w, p) := (After(START, ls), LastEntered(Open, ls).value);
            && Restart(w, held, None, avg, query, stale)
               == OpenPositionRestore(held, p.side, p.entryPrice, p.stopLoss, p.takeProfit)
            && Step(w, CrashAndRestart(held, None, avg, query, stale)) == World(Open, w.saved)
  {
    hide After, LastEntered, Restart;
    RowTellsThePosition(ls);
    ActionOf(After(START, ls), held, avg, query, stale);
  }

  lemma ActionOf(w: World, held: nat, avg: Option<int>, query: QuerySummary, stale: bool)
    requires held > 0 && KindOf(w.saved) == OpenRow
    ensures var r := w.saved.value;
            Restart(w, held, None, avg, query, stale)
            == OpenPositionRestore(held, r.side, r.entryPrice, r.stopLoss, r.takeProfit)
  {
  }

  /** Marking an exit or entering manual keeps what the row says of the position. */
  lemma UpdatesKeepThePosition(r: SavedState, s: State)
    requires s == ExitPending || s == ManualIntervention
    ensures r.SavedFlat? ==> UpdateRow(Some(r), s).value.quantity == 0 && UpdateRow(Some(r), s).value.entryPrice == 0
    ensures !r.SavedFlat? ==>
            var u := UpdateRow(Some(r), s).value;
            && (if s == ExitPending then u.SavedExitPending? else u.SavedManual?)
            && u.side == r.side && u.entryPrice == r.entryPrice && u.quantity == r.quantity
            && (r.SavedOpen? || r.SavedExitPending? || r.SavedExitPartial? || r.SavedManual? ==>
                  u.stopLoss == r.stopLoss && u.takeProfit == r.takeProfit)
  {
  }
}

/** Whole runs of the execution actor: what every event sequence from Flat keeps. */
module ActorRuns {
  import opened ExecutionActor

  /** The state after all events of `es`, rejected ones included. */
  function StateAfter(s: State, es: seq<Event>): State {
    if es == [] then s
    else Next(StateAfter(s, es[..|es| - 1]), es[|es| - 1])
  }

  /** All commands issued while consuming `es`, in order. */
  function CommandsOf(s: State, es: seq<Event>): seq<Command> {
    if es == [] then []
    else CommandsOf(s, es[..|es| - 1]) + Commands(StateAfter(s, es[..|es| - 1]), es[|es| - 1])
  }

  /** The k-th state visited, counting the start as number 0. */
  function StateAt(s: State, es: seq<Event>, k: nat): State
    requires k <= |es|
  {
    StateAfter(s, es[..k])
  }

  lemma StateAtStep(s: State, es: seq<Event>, k: nat)
    requires k < |es|
    ensures StateAt(s, es, k + 1) == Next(StateAt(s, es, k), es[k])
  {
    assert es[..k + 1][..k] == es[..k];
  }

  // ---------------------------------------------------------------------------
  // How a position comes to be open
  // ---------------------------------------------------------------------------

  predicate NoFlatBetween(es: seq<Event>, i: nat, k: nat)
    requires i <= k <= |es|
  {
    forall m :: i <= m <= k ==> StateAt(Flat, es, m) != Flat
  }

  predicate HoldsShares(s: State) {
    s in {EntryPartial, Open, ExitPending, ExitPartial}
  }

  /**
   Every state with shares was reached through SignalArmed and, later, EntryPending,
   with no visit to Flat in between.
   */
  lemma {:induction false} SharesComeFromAnEntry(es: seq<Event>, k: nat) returns (i: nat, j: nat)
    requires k <= |es|
    requires HoldsShares(StateAt(Flat, es, k))
    ensures i < j < k && NoFlatBetween(es, i, k)
    ensures StateAt(Flat, es, i) == SignalArmed && StateAt(Flat, es, j) == EntryPending
  {
    hide Apply, Next, StateAt;
    NoChangeYet(es);
    StateAtStep(Flat, es, k - 1);
    var before := StateAt(Flat, es, k - 1);
    EntryStep(before, es[k - 1]);
    if before == EntryPending {
      j := k - 1;
      i := PendingComesFromArmed(es, j);
    } else {
      i, j := SharesComeFromAnEntry(es, k - 1);
    }
  }

  /** The only ways into the entry and holding states. */
  lemma EntryStep(s: State, e: Event)
    ensures Next(s, e) == EntryPending ==> s == SignalArmed || s == EntryPending
    ensures HoldsShares(Next(s, e)) ==> s == EntryPending || HoldsShares(s)
  {
  }

  lemma {:induction false} PendingComesFromArmed(es: seq<Event>, k: nat) returns (i: nat)
    requires k <= |es|
    requires StateAt(Flat, es, k) == EntryPending
    ensures i < k && StateAt(Flat, es, i) == SignalArmed && NoFlatBetween(es, i, k)
  {
    hide Apply, Next, StateAt;
    NoChangeYet(es);
    StateAtStep(Flat, es, k - 1);
    EntryStep(StateAt(Flat, es, k - 1), es[k - 1]);
    if StateAt(Flat, es, k - 1) == SignalArmed {
      i := k - 1;
    } else {
      i := PendingComesFromArmed(es, k - 1);
    }
  }

  // ---------------------------------------------------------------------------
  // The length of one round trip
  // ---------------------------------------------------------------------------

  /** Position on the way from Flat back to Flat. */
  function Rank(s: State): nat {
    match s
    case Flat => 0
    case SignalArmed => 1
    case EntryPending => 2
    case EntryPartial => 3
    case Open => 4
    case ExitPending => 5
    case ExitPartial => 6
    case ManualIntervention => 7
    case Degraded => 8
  }

  /** Number of state changes among the steps lo, lo+1, ..., hi-1. */
  function Changes(es: seq<Event>, lo: nat, hi: nat): nat
    requires lo <= hi <= |es|
  {
    if lo == hi then 0
    else Changes(es, lo, hi - 1) + if StateAt(Flat, es, hi - 1) != StateAt(Flat, es, hi) then 1 else 0
  }

  lemma {:induction false} NeverDegraded(es: seq<Event>, k: nat)
    requires k <= |es|
    ensures StateAt(Flat, es, k) != Degraded
  {
    hide StateAt;
    NoChangeYet(es);
    if k > 0 {
      StateAtStep(Flat, es, k - 1);
      NeverDegraded(es, k - 1);
    }
  }

  /** Every change of state goes up, unless it returns to Flat; from manual there is none. */
  lemma RankStep(s: State, e: Event)
    requires s != Degraded
    ensures Rank(s) <= 7 && Rank(Flat) == 0
    ensures Next(s, e) == s || Next(s, e) == Flat || Rank(Next(s, e)) > Rank(s)
    ensures Next(s, e) == Flat && s != Flat ==> Rank(s) <= 6
  {
  }

  lemma {:induction false} ChangesBoundedByRank(es: seq<Event>, lo: nat, hi: nat)
    requires lo <= hi <= |es|
    requires StateAt(Flat, es, lo) == Flat
    requires forall m :: lo < m <= hi ==> StateAt(Flat, es, m) != Flat
    ensures Changes(es, lo, hi) <= Rank(StateAt(Flat, es, hi)) <= 7
  {
    hide Apply, Next, StateAt, Rank;
    NeverDegraded(es, hi);
    RankStep(StateAt(Flat, es, hi), ManualInterventionRequired(""));
    if lo < hi {
      ChangesBoundedByRank(es, lo, hi - 1);
      StateAtStep(Flat, es, hi - 1);
      NeverDegraded(es, hi - 1);
      RankStep(StateAt(Flat, es, hi - 1), es[hi - 1]);
    }
  }

  /** From one visit to Flat to the next the state changes at most seven times. */
  lemma {:induction false} AtMostSevenChangesBetweenFlats(es: seq<Event>, lo: nat, hi: nat)
    requires lo <= hi <= |es|
    requires StateAt(Flat, es, lo) == Flat
    requires forall m :: lo < m < hi ==> StateAt(Flat, es, m) != Flat
    ensures Changes(es, lo, hi) <= 7
  {
    hide Apply, Next, StateAt, Rank;
    if lo < hi {
      ChangesBoundedByRank(es, lo, hi - 1);
      StateAtStep(Flat, es, hi - 1);
      NeverDegraded(es, hi - 1);
      NeverDegraded(es, hi);
      RankStep(StateAt(Flat, es, hi - 1), es[hi - 1]);
      RankStep(StateAt(Flat, es, hi), es[hi - 1]);
    }
  }

  /** The longest round trip: partial entry, then partial exit. */
  const LONGEST_TRIP: seq<Event> := [
    SignalTriggered("s"), EntryOrderAccepted("o"), ExecutionNotice("o", 1, 2), BalanceReconciled(2),
    ExitRequested("tp"), BalanceReconciled(1), BalanceReconciled(0)
  ]

  lemma OneMoreChange(es: seq<Event>, k: nat, e: Event, to: State)
    requires k < |es| && es[k] == e && to == Next(StateAt(Flat, es, k), e) != StateAt(Flat, es, k)
    requires Changes(es, 0, k) == k
    ensures StateAt(Flat, es, k + 1) == to && Changes(es, 0, k + 1) == k + 1
  {
    StateAtStep(Flat, es, k);
  }

  /** Seven is attained. */
  lemma SevenChangesHappen()
    ensures StateAt(Flat, LONGEST_TRIP, 7) == Flat && Changes(LONGEST_TRIP, 0, 7) == 7
    ensures forall m :: 0 < m < 7 ==> StateAt(Flat, LONGEST_TRIP, m) != Flat
  {
    hide StateAt, StateAfter, Changes, Apply, Next;
    var es := LONGEST_TRIP;
    StatesOfLongestTrip();
    NoChangeYet(es);
    OneMoreChange(es, 0, SignalTriggered("s"), SignalArmed);
    OneMoreChange(es, 1, EntryOrderAccepted("o"), EntryPending);
    OneMoreChange(es, 2, ExecutionNotice("o", 1, 2), EntryPartial);
    OneMoreChange(es, 3, BalanceReconciled(2), Open);
    OneMoreChange(es, 4, ExitRequested("tp"), ExitPending);
    OneMoreChange(es, 5, BalanceReconciled(1), ExitPartial);
    OneMoreChange(es, 6, BalanceReconciled(0), Flat);
  }

  lemma StatesOfLongestTrip()
    ensures Next(Flat, SignalTriggered("s")) == SignalArmed
    ensures Next(SignalArmed, EntryOrderAccepted("o")) == EntryPending
    ensures Next(EntryPending, ExecutionNotice("o", 1, 2)) == EntryPartial
    ensures Next(EntryPartial, BalanceReconciled(2)) == Open
    ensures Next(Open, ExitRequested("tp")) == ExitPending
    ensures Next(ExitPending, BalanceReconciled(1)) == ExitPartial
    ensures Next(ExitPartial, BalanceReconciled(0)) == Flat
  {
  }

  lemma NoChangeYet(es: seq<Event>)
    ensures StateAt(Flat, es, 0) == Flat && Changes(es, 0, 0) == 0
  {
  }

  // ---------------------------------------------------------------------------
  // Command counts
  // ---------------------------------------------------------------------------

  function Count(cs: seq<Command>, p: Command -> bool): nat {
    if cs == [] then 0
    else Count(cs[..|cs| - 1], p) + if p(cs[|cs| - 1]) then 1 else 0
  }

  lemma {:induction false} CountConcat(a: seq<Command>, b: seq<Command>, p: Command -> bool)
    ensures Count(a + b, p) == Count(a, p) + Count(b, p)
  {
    if b == [] {
      assert a + b == a;
    } else {
      assert (a + b)[..|a + b| - 1] == a + b[..|b| - 1];
      CountConcat(a, b[..|b| - 1], p);
    }
  }

  const IsExitSubmission := (c: Command) => c.SubmitExitOrder?
  const IsManualEntry := (c: Command) => c.EnterManualIntervention?

  /** Signals that armed the actor. */
  function AcceptedSignals(s: State, es: seq<Event>): nat {
    if es == [] then 0
    else
      var prev := es[..|es| - 1];
      AcceptedSignals(s, prev)
      + if StateAfter(s, prev) == Flat && StateAfter(s, es) == SignalArmed then 1 else 0
  }

  predicate MayStillExit(s: State) {
    s in {SignalArmed, EntryPending, EntryPartial, Open}
  }

  /** Each exit order answers an accepted signal of its own. */
  lemma {:induction false} ExitsNeverExceedSignals(es: seq<Event>)
    ensures Count(CommandsOf(Flat, es), IsExitSubmission)
         + (if MayStillExit(StateAfter(Flat, es)) then 1 else 0) <= AcceptedSignals(Flat, es)
  {
    hide Apply, Next, Commands, Count, IsExitSubmission;
    if es == [] {
      CountShort([], IsExitSubmission);
    } else {
      var prev := es[..|es| - 1];
      var s, e := StateAfter(Flat, prev), es[|es| - 1];
      assert CommandsOf(Flat, es) == CommandsOf(Flat, prev) + Commands(s, e);
      assert StateAfter(Flat, es) == Next(s, e);
      assert AcceptedSignals(Flat, es) == AcceptedSignals(Flat, prev) + if s == Flat && Next(s, e) == SignalArmed then 1 else 0;
      hide CommandsOf, StateAfter, AcceptedSignals;
      ExitsNeverExceedSignals(prev);
      CountConcat(CommandsOf(Flat, prev), Commands(s, e), IsExitSubmission);
      NeverDegraded(es, |prev|);
      ExitsOfOneStep(s, e);
    }
  }

  lemma ExitsOfOneStep(s: State, e: Event)
    ensures Next(s, e) == ExitPending ==> s in {Open, ExitPending}
    ensures MayStillExit(Next(s, e)) ==> MayStillExit(s) || (s == Flat && Next(s, e) == SignalArmed) || s == Degraded
    ensures Count(Commands(s, e), IsExitSubmission) == if s == Open && Next(s, e) == ExitPending then 1 else 0
  {
    hide Count, Apply, Next, Commands, MayStillExit;
    WaysToAnExit(s, e);
    CommandsAreFew(s, e);
    CountShort(Commands(s, e), IsExitSubmission);
    ExitCommands(s, e);
  }

  lemma WaysToAnExit(s: State, e: Event)
    ensures Next(s, e) == ExitPending ==> s in {Open, ExitPending}
    ensures MayStillExit(Next(s, e)) ==> MayStillExit(s) || (s == Flat && Next(s, e) == SignalArmed) || s == Degraded
  {
  }

  lemma ExitCommands(s: State, e: Event)
    ensures var cs := Commands(s, e);
            if s == Open && Next(s, e) == ExitPending then |cs| == 1 && cs[0].SubmitExitOrder?
            else forall i :: 0 <= i < |cs| ==> !cs[i].SubmitExitOrder?
  {
  }

  lemma CommandsAreFew(s: State, e: Event)
    ensures |Commands(s, e)| <= 2
  {
  }

  lemma CountShort(cs: seq<Command>, p: Command -> bool)
    requires |cs| <= 2
    ensures Count(cs, p) == (if |cs| > 0 && p(cs[0]) then 1 else 0) + (if |cs| > 1 && p(cs[1]) then 1 else 0)
  {
    if |cs| == 2 {
      assert cs[..1][..0] == [] && cs[..1][0] == cs[0];
    } else if |cs| == 1 {
      assert cs[..0] == [];
    }
  }

  lemma ManualEntriesOfOneStep(s: State, e: Event)
    ensures s == ManualIntervention ==> Next(s, e) == ManualIntervention
    ensures Count(Commands(s, e), IsManualEntry)
         == if s != ManualIntervention && Next(s, e) == ManualIntervention then 1 else 0
  {
    hide Count;
    CommandsAreFew(s, e);
    CountShort(Commands(s, e), IsManualEntry);
  }

  /**
   Manual intervention is absorbing, and its command is issued exactly once in the run
   that enters it and never in any other run, whatever the start.
   */
  lemma {:induction false} ManualEnteredOnceForGood(s: State, es: seq<Event>, k: nat)
    requires k <= |es|
    ensures StateAt(s, es, k) == ManualIntervention ==> StateAfter(s, es) == ManualIntervention
    ensures Count(CommandsOf(s, es), IsManualEntry)
         == if s != ManualIntervention && StateAfter(s, es) == ManualIntervention then 1 else 0
  {
    hide Apply, Next, Commands;
    assert es[..|es|] == es;
    if es != [] {
      var prev := es[..|es| - 1];
      CountConcat(CommandsOf(s, prev), Commands(StateAfter(s, prev), es[|es| - 1]), IsManualEntry);
      ManualEntriesOfOneStep(StateAfter(s, prev), es[|es| - 1]);
      if k < |es| {
        assert prev[..k] == es[..k];
        ManualEnteredOnceForGood(s, prev, k);
      } else {
        ManualEnteredOnceForGood(s, prev, |prev|);
      }
      if s == ManualIntervention {
        ManualEnteredOnceForGood(s, prev, 0);
        assert prev[..0] == [];
      }
    }
  }

  // ---------------------------------------------------------------------------
  // What an idle actor ignores
  // ---------------------------------------------------------------------------

  predicate EndsIdleness(s: State, e: Event) {
    e.ManualInterventionRequired? || (s == Flat && e.SignalTriggered?)
  }

  ghost predicate StaysIn(s: State, es: seq<Event>) {
    forall k :: 0 <= k <= |es| ==> StateAt(s, es, k) == s
  }

  ghost predicate NothingEndsIdleness(s: State, es: seq<Event>) {
    forall i :: 0 <= i < |es| ==> !EndsIdleness(s, es[i])
  }

  /**
   A flat actor moves only on a signal or a manual request, a degraded one only on the latter.
   A balance report, a late fill or an exit confirmation leaves both where they are, without a command.
   */
  lemma {:induction false} OnlySignalsEndIdleness(s: State, es: seq<Event>)
    requires s == Flat || s == Degraded
    ensures StaysIn(s, es) <==> NothingEndsIdleness(s, es)
    ensures StaysIn(s, es) ==> CommandsOf(s, es) == []
  {
    hide Apply, Next, Commands;
    assert es[..|es|] == es;
    if es != [] {
      OnlySignalsEndIdleness(s, es[..|es| - 1]);
      LastStepStays(s, es);
      IdleStep(s, es[|es| - 1]);
    }
  }

  /** A stay is a shorter stay and one more step that keeps the state. */
  lemma LastStepStays(s: State, es: seq<Event>)
    requires es != []
    ensures var (prev, e) := (es[..|es| - 1], es[|es| - 1]);
            && (StaysIn(s, es) <==> StaysIn(s, prev) && Next(s, e) == s)
            && (StaysIn(s, prev) ==> StateAfter(s, prev) == s)
            && (NothingEndsIdleness(s, es) <==> NothingEndsIdleness(s, prev) && !EndsIdleness(s, e))
  {
    hide Apply, Next, StateAfter, EndsIdleness;
    var prev := es[..|es| - 1];
    assert forall k :: 0 <= k <= |prev| ==> prev[..k] == es[..k];
    assert prev[..|prev|] == prev;
    StateAtStep(s, es, |prev|);
    forall k | 0 <= k <= |prev| ensures StateAt(s, prev, k) == StateAt(s, es, k) {
    }
  }

  lemma IdleStep(s: State, e: Event)
    requires s == Flat || s == Degraded
    ensures Next(s, e) == s <==> !EndsIdleness(s, e)
    ensures Next(s, e) == s ==> Commands(s, e) == []
  {
  }

  // ---------------------------------------------------------------------------
  // What the orders of a run answer
  // ---------------------------------------------------------------------------

  const IsCancel := (c: Command) => c == CancelOrder("")
  const IsReconcile := (c: Command) => c.ReconcileBalance?
  const IsOrder := (c: Command) => c.SubmitEntryOrder? || c.QueryExecution? || (c.CancelOrder? && c.orderId != "")

  /** Entry orders whose fill timed out with nothing filled. */
  function UnfilledTimeouts(s: State, es: seq<Event>): nat {
    if es == [] then 0
    else
      var prev := es[..|es| - 1];
      UnfilledTimeouts(s, prev)
      + if StateAfter(s, prev) == EntryPending && es[|es| - 1] == TimeoutExpired(EntryFill) then 1 else 0
  }

  /** Notices that an exit order was filled completely. */
  function FullExitFills(s: State, es: seq<Event>): nat {
    if es == [] then 0
    else
      var prev, e := es[..|es| - 1], es[|es| - 1];
      FullExitFills(s, prev)
      + if StateAfter(s, prev) == ExitPending && e.ExecutionNotice? && e.filledQty >= e.targetQty then 1 else 0
  }

  /**
   In every run an order is cancelled exactly once for each entry that timed out unfilled, and the
   balance is asked for exactly then and on each complete exit fill; the actor never submits an
   entry, queries or cancels by number on its own.
   */
  lemma {:induction false} OrdersAnswerTimeouts(s: State, es: seq<Event>)
    ensures Count(CommandsOf(s, es), IsCancel) == UnfilledTimeouts(s, es)
    ensures Count(CommandsOf(s, es), IsReconcile) == UnfilledTimeouts(s, es) + FullExitFills(s, es)
    ensures Count(CommandsOf(s, es), IsOrder) == 0
  {
    hide Apply, Next, Commands, Count, IsCancel, IsReconcile, IsOrder;
    if es == [] {
      CountShort([], IsCancel);
      CountShort([], IsReconcile);
      CountShort([], IsOrder);
    } else {
      var prev, e := es[..|es| - 1], es[|es| - 1];
      var t := StateAfter(s, prev);
      assert CommandsOf(s, es) == CommandsOf(s, prev) + Commands(t, e);
      OrdersAnswerTimeouts(s, prev);
      CountConcat(CommandsOf(s, prev), Commands(t, e), IsCancel);
      CountConcat(CommandsOf(s, prev), Commands(t, e), IsReconcile);
      CountConcat(CommandsOf(s, prev), Commands(t, e), IsOrder);
      hide CommandsOf;
      OrdersOfOneStep(t, e);
    }
  }

  lemma OrdersOfOneStep(s: State, e: Event)
    ensures var unfilled := s == EntryPending && e == TimeoutExpired(EntryFill);
            var filled := s == ExitPending && e.ExecutionNotice? && e.filledQty >= e.targetQty;
            && Count(Commands(s, e), IsCancel) == (if unfilled then 1 else 0)
            && Count(Commands(s, e), IsReconcile) == (if unfilled || filled then 1 else 0)
            && Count(Commands(s, e), IsOrder) == 0
  {
    hide Apply, Next, Commands, Count;
    CommandsExactly(s, e);
    EnteredExactly(ManualIntervention, if s == ManualIntervention then Flat else s, e);
    CountShort(Commands(s, e), IsCancel);
    CountShort(Commands(s, e), IsReconcile);
    CountShort(Commands(s, e), IsOrder);
  }
}

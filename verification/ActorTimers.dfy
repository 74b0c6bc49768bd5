/**
 The actor with a clock.  Entering a new state arms the timer of that state (or none);
 a transition that keeps the state keeps the running timer.  Time never passes a due
 timer: it fires first.
 */
module ActorTimers {
  import opened Wrappers
  import opened ExecutionActor

  datatype Timer = Timer(phase: TimeoutPhase, due: nat)

  datatype Timed = Timed(state: State, clock: nat, timer: Option<Timer>)

  /** Either an event delivered at a given time, or the expiry of the armed timer. */
  datatype Step = Deliver(at: nat, event: Event) | Fire

  function Arm(s: State, p: TimeoutPolicy, now: nat): Option<Timer> {
    match NextTimeoutFor(s, p)
    case None => None
    case Some((phase, wait)) => Some(Timer(phase, now + wait))
  }

  predicate Enabled(t: Timed, step: Step) {
    match step
    case Deliver(at, _) => t.clock <= at && (t.timer.Some? ==> at <= t.timer.value.due)
    case Fire => t.timer.Some? && t.clock <= t.timer.value.due
  }

  function Advance(p: TimeoutPolicy, t: Timed, step: Step): Timed
    requires Enabled(t, step)
  {
    var (now, event) := match step
      case Deliver(at, e) => (at, e)
      case Fire => (t.timer.value.due, TimeoutExpired(t.timer.value.phase));
    var s := Next(t.state, event);
    Timed(s, now, if s != t.state then Arm(s, p, now) else if step.Fire? then None else t.timer)
  }

  predicate StepsTo(p: TimeoutPolicy, t: Timed, step: Step, u: Timed) {
    Enabled(t, step) && u == Advance(p, t, step)
  }

  ghost predicate CanStep(p: TimeoutPolicy, t: Timed, u: Timed) {
    exists step :: StepsTo(p, t, step, u)
  }

  /** A timed run: it starts idle in Flat and every later state is one step from the one before. */
  ghost predicate IsRun(p: TimeoutPolicy, run: seq<Timed>) {
    && |run| > 0
    && run[0].state == Flat && run[0].timer == None
    && forall i :: 0 < i < |run| ==> CanStep(p, run[i - 1], run[i])
  }

  predicate InEntry(s: State) {
    s in {SignalArmed, EntryPending, EntryPartial}
  }

  predicate InExit(s: State) {
    s in {ExitPending, ExitPartial}
  }

  function EntryBound(p: TimeoutPolicy): nat {
    p.entrySubmit + 2 * p.entryFill
  }

  function ExitBound(p: TimeoutPolicy): nat {
    2 * p.exitFill
  }

  /** The timer is the one the policy names for the state, and it has not been missed. */
  predicate WellTimed(p: TimeoutPolicy, t: Timed) {
    match NextTimeoutFor(t.state, p)
    case None => t.timer == None
    case Some((phase, wait)) =>
      t.timer.Some? && t.timer.value.phase == phase && t.clock <= t.timer.value.due <= t.clock + wait
  }

  /** The longest time the actor can still spend in its entry (or exit) states. */
  function Budget(p: TimeoutPolicy, t: Timed): int {
    if t.timer == None then 0
    else
      t.timer.value.due - t.clock
      + match t.state
        case SignalArmed => 2 * p.entryFill
        case EntryPending => p.entryFill
        case ExitPending => p.exitFill
        case _ => 0
  }

  lemma {:induction false} RunsAreWellTimed(p: TimeoutPolicy, run: seq<Timed>, i: nat)
    requires IsRun(p, run) && i < |run|
    ensures WellTimed(p, run[i]) && run[i].state != Degraded
  {
    hide Apply, Advance, Budget;
    if i > 0 {
      RunsAreWellTimed(p, run, i - 1);
      var step :| StepsTo(p, run[i - 1], step, run[i]);
      OneStepIsTimed(p, run[i - 1], step);
    }
  }

  /** One step keeps the timer right and pays for its own duration out of the budget. */
  lemma OneStepIsTimed(p: TimeoutPolicy, t: Timed, step: Step)
    requires WellTimed(p, t) && Enabled(t, step) && t.state != Degraded
    ensures var u := Advance(p, t, step);
            && WellTimed(p, u) && u.state != Degraded
            && t.clock <= u.clock
            && ((InEntry(t.state) && InEntry(u.state)) || (InExit(t.state) && InExit(u.state))
                ==> Budget(p, u) + u.clock <= Budget(p, t) + t.clock)
            && (step == Fire ==> u.timer == None)
  {
    if step == Fire {
      ArmedTimerIsAcceptedAndFinal(t.state, p);
    }
  }

  lemma BudgetIsNonNegative(p: TimeoutPolicy, t: Timed)
    requires WellTimed(p, t)
    ensures Budget(p, t) >= 0
  {
  }

  lemma {:induction false} StayIsPaidFromBudget(p: TimeoutPolicy, run: seq<Timed>, i: nat, j: nat)
    requires IsRun(p, run) && i <= j < |run|
    requires (forall m :: i <= m <= j ==> InEntry(run[m].state))
          || (forall m :: i <= m <= j ==> InExit(run[m].state))
    ensures run[j].clock + Budget(p, run[j]) <= run[i].clock + Budget(p, run[i])
    ensures Budget(p, run[j]) >= 0
  {
    hide Apply, Advance, Budget, WellTimed;
    RunsAreWellTimed(p, run, j);
    BudgetIsNonNegative(p, run[j]);
    if i < j {
      StayIsPaidFromBudget(p, run, i, j - 1);
      RunsAreWellTimed(p, run, j - 1);
      var step :| StepsTo(p, run[j - 1], step, run[j]);
      OneStepIsTimed(p, run[j - 1], step);
    }
  }

  /** Any uninterrupted stay in the entry states lasts at most submit + 2 * fill. */
  lemma EntryStatesAreLeftInTime(p: TimeoutPolicy, run: seq<Timed>, i: nat, j: nat)
    requires IsRun(p, run) && i <= j < |run|
    requires forall m :: i <= m <= j ==> InEntry(run[m].state)
    ensures run[j].clock - run[i].clock <= EntryBound(p)
  {
    StayIsPaidFromBudget(p, run, i, j);
    RunsAreWellTimed(p, run, i);
  }

  /** Any uninterrupted stay in the exit states lasts at most 2 * exit fill. */
  lemma ExitStatesAreLeftInTime(p: TimeoutPolicy, run: seq<Timed>, i: nat, j: nat)
    requires IsRun(p, run) && i <= j < |run|
    requires forall m :: i <= m <= j ==> InExit(run[m].state)
    ensures run[j].clock - run[i].clock <= ExitBound(p)
  {
    StayIsPaidFromBudget(p, run, i, j);
    RunsAreWellTimed(p, run, i);
  }

  /** In a waiting state the timer can always fire, and firing ends all waiting. */
  lemma TimerNeverStuck(p: TimeoutPolicy, run: seq<Timed>, i: nat)
    requires IsRun(p, run) && i < |run|
    ensures InEntry(run[i].state) || InExit(run[i].state) <==> run[i].timer.Some?
    ensures run[i].timer.Some? ==>
              && Enabled(run[i], Fire)
              && Apply(run[i].state, TimeoutExpired(run[i].timer.value.phase)).Ok?
              && Advance(p, run[i], Fire).timer == None
              && !InEntry(Advance(p, run[i], Fire).state)
              && !InExit(Advance(p, run[i], Fire).state)
  {
    RunsAreWellTimed(p, run, i);
    if run[i].timer.Some? {
      ArmedTimerIsAcceptedAndFinal(run[i].state, p);
    }
  }

  lemma ExtendRun(p: TimeoutPolicy, run: seq<Timed>, at: nat, e: Event, to: State) returns (longer: seq<Timed>)
    requires IsRun(p, run) && Enabled(run[|run| - 1], Deliver(at, e))
    requires Next(run[|run| - 1].state, e) == to
    ensures longer == run + [Timed(to, at, if to == run[|run| - 1].state then run[|run| - 1].timer else Arm(to, p, at))]
    ensures IsRun(p, longer)
  {
    var last := run[|run| - 1];
    longer := run + [Advance(p, last, Deliver(at, e))];
    assert StepsTo(p, last, Deliver(at, e), longer[|run|]);
  }

  /** A run that waits out every entry timer. */
  lemma SlowEntry(p: TimeoutPolicy) returns (run: seq<Timed>)
    ensures IsRun(p, run) && |run| == 6
    ensures run[1] == Timed(SignalArmed, 0, Some(Timer(EntrySubmit, p.entrySubmit)))
    ensures InEntry(run[2].state) && InEntry(run[3].state) && run[4].state == EntryPartial
    ensures run[4].clock == EntryBound(p)
    ensures run[5] == Timed(Open, EntryBound(p), None)
  {
    hide Apply, IsRun;
    SingletonRun(p);
    DeliveredStates();
    run := [Timed(Flat, 0, None)];
    run := ExtendRun(p, run, 0, SignalTriggered(""), SignalArmed);
    run := ExtendRun(p, run, p.entrySubmit, EntryOrderAccepted(""), EntryPending);
    run := ExtendRun(p, run, p.entrySubmit + p.entryFill, ExecutionNotice("", 1, 2), EntryPartial);
    run := ExtendRun(p, run, EntryBound(p), ExecutionNotice("", 1, 2), EntryPartial);
    run := ExtendRun(p, run, EntryBound(p), BalanceReconciled(2), Open);
  }

  lemma SingletonRun(p: TimeoutPolicy)
    ensures IsRun(p, [Timed(Flat, 0, None)])
  {
  }

  lemma DeliveredStates()
    ensures Next(Flat, SignalTriggered("")) == SignalArmed
    ensures Next(SignalArmed, EntryOrderAccepted("")) == EntryPending
    ensures Next(EntryPending, ExecutionNotice("", 1, 2)) == EntryPartial
    ensures Next(EntryPartial, ExecutionNotice("", 1, 2)) == EntryPartial
    ensures Next(EntryPartial, BalanceReconciled(2)) == Open
    ensures Next(Open, ExitRequested("")) == ExitPending
    ensures Next(ExitPending, BalanceReconciled(1)) == ExitPartial
    ensures Next(ExitPartial, BalanceReconciled(1)) == ExitPartial
  {
  }

  /** Neither bound can be lowered: whatever the policy, one run uses up both. */
  lemma BoundsAreTight(p: TimeoutPolicy) returns (run: seq<Timed>)
    ensures IsRun(p, run) && |run| == 9
    ensures (forall m :: 1 <= m <= 4 ==> InEntry(run[m].state))
         && run[4].clock - run[1].clock == EntryBound(p)
    ensures (forall m :: 6 <= m <= 8 ==> InExit(run[m].state))
         && run[8].clock - run[6].clock == ExitBound(p)
  {
    hide Apply, IsRun;
    DeliveredStates();
    run := SlowEntry(p);
    var start := EntryBound(p);
    run := ExtendRun(p, run, start, ExitRequested(""), ExitPending);
    run := ExtendRun(p, run, start + p.exitFill, BalanceReconciled(1), ExitPartial);
    run := ExtendRun(p, run, start + 2 * p.exitFill, BalanceReconciled(1), ExitPartial);
  }

  /** With the shipped limits an entry is decided within 62 seconds (paper) or 8 seconds (real), an exit within 10. */
  lemma ShippedPoliciesDecideInTime(p: TimeoutPolicy, run: seq<Timed>, i: nat, j: nat)
    requires p == PAPER_DEFAULTS || p == REAL_DEFAULTS
    requires IsRun(p, run) && i <= j < |run|
    ensures (forall m :: i <= m <= j ==> InEntry(run[m].state)) ==>
              run[j].clock - run[i].clock <= if p == PAPER_DEFAULTS then 62000 else 8000
    ensures (forall m :: i <= m <= j ==> InExit(run[m].state)) ==> run[j].clock - run[i].clock <= 10000
  {
    hide IsRun;
    if forall m :: i <= m <= j ==> InEntry(run[m].state) {
      EntryStatesAreLeftInTime(p, run, i, j);
    }
    if forall m :: i <= m <= j ==> InExit(run[m].state) {
      ExitStatesAreLeftInTime(p, run, i, j);
    }
  }
}

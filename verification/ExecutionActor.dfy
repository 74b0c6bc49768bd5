/**
 The order state machine of one stock: events come in, a new state and a list of
 side-effect commands go out.  The machine itself performs no I/O.
 */
module ExecutionActor {
  import opened Wrappers

  datatype State =
    | Flat | SignalArmed | EntryPending | EntryPartial | Open
    | ExitPending | ExitPartial | ManualIntervention | Degraded

  datatype TimeoutPhase = EntrySubmit | EntryFill | ExitFill

  datatype Event =
    | SignalTriggered(signalId: string)
    | EntryOrderAccepted(orderId: string)
    | ExecutionNotice(orderId: string, filledQty: nat, targetQty: nat)
    | ExecutionQueryResolved(orderId: string, finalQty: nat, targetQty: nat)
    | BalanceReconciled(holdingsQty: nat)
    | ExitRequested(reason: string)
    | ExitOrderAccepted(orderId: string)
    | TimeoutExpired(phase: TimeoutPhase)
    | ManualInterventionRequired(reason: string)

  datatype Command =
    | SubmitEntryOrder(signalId: string)
    | SubmitExitOrder(reason: string)
    | CancelOrder(orderId: string)
    | QueryExecution(orderId: string)
    | ReconcileBalance
    | EnterManualIntervention(reason: string)
    | PersistState

  datatype Transition = Transition(state: State, commands: seq<Command>)

  datatype InvalidTransition = InvalidTransition(state: State, event: Event)

  /** The two commands issued by every move into manual intervention. */
  function ToManual(reason: string): Transition {
    Transition(ManualIntervention, [EnterManualIntervention(reason), PersistState])
  }

  function OpenAndPersist(): Transition {
    Transition(Open, [PersistState])
  }

  /** One arm per (state, event) pair of the transition table; `Err` is the rejected pair. */
  function Apply(s: State, e: Event): Result<Transition, InvalidTransition> {
    match (s, e)
    case (ManualIntervention, _) => Ok(Transition(s, []))

    case (Flat, SignalTriggered(_)) => Ok(Transition(SignalArmed, []))
    case (Flat, ManualInterventionRequired(reason)) => Ok(ToManual(reason))

    case (SignalArmed, EntryOrderAccepted(_)) => Ok(Transition(EntryPending, [PersistState]))
    case (SignalArmed, TimeoutExpired(EntrySubmit)) => Ok(Transition(Flat, []))
    case (SignalArmed, ManualInterventionRequired(reason)) => Ok(ToManual(reason))

    case (EntryPending, ExecutionNotice(_, filled, target)) =>
      if filled == 0 then Ok(Transition(s, []))
      else if filled >= target then Ok(OpenAndPersist())
      else Ok(Transition(EntryPartial, []))
    case (EntryPending, ExecutionQueryResolved(_, final, target)) =>
      if final >= target then Ok(OpenAndPersist())
      else if final == 0 then Ok(Transition(Flat, []))
      else Ok(Transition(EntryPartial, []))
    case (EntryPending, BalanceReconciled(holdings)) =>
      if holdings > 0 then Ok(OpenAndPersist()) else Ok(Transition(s, []))
    case (EntryPending, TimeoutExpired(EntryFill)) =>
      Ok(Transition(Flat, [CancelOrder(""), ReconcileBalance]))
    case (EntryPending, ManualInterventionRequired(reason)) => Ok(ToManual(reason))

    case (EntryPartial, ExecutionNotice(_, filled, target)) =>
      if filled >= target then Ok(OpenAndPersist()) else Ok(Transition(s, []))
    case (EntryPartial, BalanceReconciled(holdings)) =>
      if holdings > 0 then Ok(OpenAndPersist()) else Ok(Transition(s, []))
    case (EntryPartial, TimeoutExpired(EntryFill)) => Ok(ToManual("entry_partial_fill_timeout"))
    case (EntryPartial, ManualInterventionRequired(reason)) => Ok(ToManual(reason))

    case (Open, ExitRequested(reason)) => Ok(Transition(ExitPending, [SubmitExitOrder(reason)]))
    case (Open, ManualInterventionRequired(reason)) => Ok(ToManual(reason))

    case (ExitPending, ExitOrderAccepted(_)) => Ok(Transition(s, []))
    case (ExitPending, ExecutionNotice(_, filled, target)) =>
      if filled >= target then Ok(Transition(ExitPending, [ReconcileBalance]))
      else if filled > 0 then Ok(Transition(ExitPartial, []))
      else Ok(Transition(s, []))
    case (ExitPending, BalanceReconciled(holdings)) =>
      if holdings == 0 then Ok(Transition(Flat, [PersistState])) else Ok(Transition(ExitPartial, []))
    case (ExitPending, TimeoutExpired(ExitFill)) => Ok(ToManual("exit_fill_timeout"))
    case (ExitPending, ManualInterventionRequired(reason)) => Ok(ToManual(reason))

    case (ExitPartial, BalanceReconciled(holdings)) =>
      if holdings == 0 then Ok(Transition(Flat, [PersistState])) else Ok(Transition(s, []))
    case (ExitPartial, TimeoutExpired(ExitFill)) => Ok(ToManual("exit_partial_fill_timeout"))
    case (ExitPartial, ManualInterventionRequired(reason)) => Ok(ToManual(reason))

    case (Degraded, SignalTriggered(_)) => Ok(Transition(s, []))
    case (Degraded, ManualInterventionRequired(reason)) => Ok(ToManual(reason))

    case _ => Err(InvalidTransition(s, e))
  }

  /** The state after an event: a rejected event changes nothing. */
  function Next(s: State, e: Event): State {
    match Apply(s, e)
    case Ok(t) => t.state
    case Err(_) => s
  }

  /** The commands issued for an event: a rejected event issues none. */
  function Commands(s: State, e: Event): seq<Command> {
    match Apply(s, e)
    case Ok(t) => t.commands
    case Err(_) => []
  }

  // ---------------------------------------------------------------------------
  // The table read backwards
  // ---------------------------------------------------------------------------

  /** What brings the actor into state `n` from another state. */
  predicate LeadsInto(n: State, s: State, e: Event) {
    match n
    case Flat =>
      || (s == SignalArmed && e == TimeoutExpired(EntrySubmit))
      || (s == EntryPending && (e == TimeoutExpired(EntryFill) || (e.ExecutionQueryResolved? && e.finalQty == 0 < e.targetQty)))
      || ((s == ExitPending || s == ExitPartial) && e == BalanceReconciled(0))
    case SignalArmed => s == Flat && e.SignalTriggered?
    case EntryPending => s == SignalArmed && e.EntryOrderAccepted?
    case EntryPartial =>
      && s == EntryPending
      && ((e.ExecutionNotice? && 0 < e.filledQty < e.targetQty) || (e.ExecutionQueryResolved? && 0 < e.finalQty < e.targetQty))
    case Open =>
      || ((s == EntryPending || s == EntryPartial) && e.BalanceReconciled? && e.holdingsQty > 0)
      || ((s == EntryPending || s == EntryPartial) && e.ExecutionNotice? && e.filledQty >= e.targetQty
          && (s == EntryPending ==> e.filledQty > 0))
      || (s == EntryPending && e.ExecutionQueryResolved? && e.finalQty >= e.targetQty)
    case ExitPending => s == Open && e.ExitRequested?
    case ExitPartial =>
      && s == ExitPending
      && ((e.ExecutionNotice? && 0 < e.filledQty < e.targetQty) || (e.BalanceReconciled? && e.holdingsQty > 0))
    case ManualIntervention =>
      || e.ManualInterventionRequired?
      || (s == EntryPartial && e == TimeoutExpired(EntryFill))
      || ((s == ExitPending || s == ExitPartial) && e == TimeoutExpired(ExitFill))
    case Degraded => false
  }

  /** A state is entered from another one in exactly the listed ways; manual intervention is never left. */
  lemma EnteredExactly(n: State, s: State, e: Event)
    requires n != s
    ensures Next(s, e) == n <==> s != ManualIntervention && LeadsInto(n, s, e)
  {
    hide Next, LeadsInto;
    if IsEntering(s) {
      EnteredWhileEntering(n, s, e);
    } else if IsExiting(s) {
      EnteredWhileExiting(n, s, e);
    } else {
      EnteredOtherwise(n, s, e);
    }
  }

  predicate IsEntering(s: State) {
    s == EntryPending || s == EntryPartial
  }

  predicate IsExiting(s: State) {
    s == ExitPending || s == ExitPartial
  }

  lemma EnteredWhileEntering(n: State, s: State, e: Event)
    requires n != s && IsEntering(s)
    ensures Next(s, e) == n <==> LeadsInto(n, s, e)
  {
  }

  lemma EnteredWhileExiting(n: State, s: State, e: Event)
    requires n != s && IsExiting(s)
    ensures Next(s, e) == n <==> LeadsInto(n, s, e)
  {
  }

  lemma EnteredOtherwise(n: State, s: State, e: Event)
    requires n != s && !IsEntering(s) && !IsExiting(s)
    ensures Next(s, e) == n <==> s != ManualIntervention && LeadsInto(n, s, e)
  {
  }

  /** The states that accept an event; manual intervention accepts all of them, and a rejection names its pair. */
  lemma AcceptedExactly(s: State, e: Event)
    ensures Apply(s, e).Ok? <==>
              || s == ManualIntervention
              || match e
                 case SignalTriggered(_) => s == Flat || s == Degraded
                 case EntryOrderAccepted(_) => s == SignalArmed
                 case ExecutionNotice(_, _, _) => s == EntryPending || s == EntryPartial || s == ExitPending
                 case ExecutionQueryResolved(_, _, _) => s == EntryPending
                 case BalanceReconciled(_) => s == EntryPending || s == EntryPartial || s == ExitPending || s == ExitPartial
                 case ExitRequested(_) => s == Open
                 case ExitOrderAccepted(_) => s == ExitPending
                 case TimeoutExpired(EntrySubmit) => s == SignalArmed
                 case TimeoutExpired(EntryFill) => s == EntryPending || s == EntryPartial
                 case TimeoutExpired(ExitFill) => s == ExitPending || s == ExitPartial
                 case ManualInterventionRequired(_) => true
    ensures Apply(s, e).Err? ==> Apply(s, e).error == InvalidTransition(s, e)
  {
  }

  /** Why the actor enters manual intervention: the requested reason, or that of the timeout. */
  function ManualReason(s: State, e: Event): string {
    if e.ManualInterventionRequired? then e.reason
    else if s == EntryPartial then "entry_partial_fill_timeout"
    else if s == ExitPending then "exit_fill_timeout"
    else "exit_partial_fill_timeout"
  }

  /** All the commands an event issues, by what it changes. */
  lemma CommandsExactly(s: State, e: Event)
    ensures Commands(s, e)
         == if s != ManualIntervention && Next(s, e) == ManualIntervention then
              [EnterManualIntervention(ManualReason(s, e)), PersistState]
            else if s == EntryPending && e == TimeoutExpired(EntryFill) then
              [CancelOrder(""), ReconcileBalance]
            else if s == Open && e.ExitRequested? then
              [SubmitExitOrder(e.reason)]
            else if s == ExitPending && e.ExecutionNotice? && e.filledQty >= e.targetQty then
              [ReconcileBalance]
            else if s != Next(s, e) && (Next(s, e) == EntryPending || Next(s, e) == Open
                                        || (Next(s, e) == Flat && (s == ExitPending || s == ExitPartial))) then
              [PersistState]
            else []
  {
  }

  /** A timeout only ever ends in Flat, where nothing is held yet, or in manual intervention, where something may be. */
  lemma TimeoutsNeverTrade(s: State, phase: TimeoutPhase)
    ensures Next(s, TimeoutExpired(phase)) == Flat <==>
              || s == Flat
              || (s == SignalArmed && phase == EntrySubmit)
              || (s == EntryPending && phase == EntryFill)
    ensures Next(s, TimeoutExpired(phase)) == ManualIntervention <==>
              || s == ManualIntervention
              || (s == EntryPartial && phase == EntryFill)
              || ((s == ExitPending || s == ExitPartial) && phase == ExitFill)
    ensures Next(s, TimeoutExpired(phase)) in {s, Flat, ManualIntervention}
  {
  }

  // ---------------------------------------------------------------------------
  // The shadow validator
  // ---------------------------------------------------------------------------

  /** The fifteen events the validator tries. */
  const SAMPLES: seq<Event> := [
    SignalTriggered(""),
    EntryOrderAccepted(""),
    ExecutionNotice("", 10, 10),
    ExecutionNotice("", 3, 10),
    ExecutionNotice("", 0, 10),
    ExecutionQueryResolved("", 10, 10),
    ExecutionQueryResolved("", 0, 10),
    BalanceReconciled(5),
    BalanceReconciled(0),
    ExitRequested(""),
    ExitOrderAccepted(""),
    TimeoutExpired(EntrySubmit),
    TimeoutExpired(EntryFill),
    TimeoutExpired(ExitFill),
    ManualInterventionRequired("")
  ]

  /** Transitions made outside the event table (health gate, late fill recovery). */
  predicate Whitelisted(prev: State, next: State) {
    || (prev == Degraded && next in {Open, Flat, SignalArmed})
    || (prev in {Flat, SignalArmed, Open} && next == Degraded)
    || (prev == Flat && next == EntryPartial)
  }

  predicate Takes(prev: State, e: Event, next: State) {
    Apply(prev, e).Ok? && Apply(prev, e).value.state == next
  }

  predicate IsAllowedTransition(prev: State, next: State) {
    || prev == next
    || Whitelisted(prev, next)
    || exists i :: 0 <= i < |SAMPLES| && Takes(prev, SAMPLES[i], next)
  }

  /** The sample that does in state `s` what `e` does. */
  function SampleFor(s: State, e: Event): Event {
    match e
    case SignalTriggered(_) => SignalTriggered("")
    case EntryOrderAccepted(_) => EntryOrderAccepted("")
    case ExecutionNotice(_, filled, target) =>
      if filled == 0 && s == EntryPending then ExecutionNotice("", 0, 10)
      else if filled >= target then ExecutionNotice("", 10, 10)
      else if filled > 0 then ExecutionNotice("", 3, 10)
      else ExecutionNotice("", 0, 10)
    case ExecutionQueryResolved(_, final, target) =>
      if final >= target then ExecutionQueryResolved("", 10, 10)
      else if final == 0 then ExecutionQueryResolved("", 0, 10)
      else ExecutionNotice("", 3, 10)
    case BalanceReconciled(h) => if h > 0 then BalanceReconciled(5) else BalanceReconciled(0)
    case ExitRequested(_) => ExitRequested("")
    case ExitOrderAccepted(_) => ExitOrderAccepted("")
    case TimeoutExpired(phase) => TimeoutExpired(phase)
    case ManualInterventionRequired(_) => ManualInterventionRequired("")
  }

  lemma SampleIsListed(s: State, e: Event) returns (i: nat)
    ensures i < |SAMPLES| && SAMPLES[i] == SampleFor(s, e)
  {
    var x := SampleFor(s, e);
    i := match x
      case SignalTriggered(_) => 0
      case EntryOrderAccepted(_) => 1
      case ExecutionNotice(_, filled, _) => if filled == 10 then 2 else if filled == 3 then 3 else 4
      case ExecutionQueryResolved(_, final, _) => if final == 10 then 5 else 6
      case BalanceReconciled(h) => if h == 5 then 7 else 8
      case ExitRequested(_) => 9
      case ExitOrderAccepted(_) => 10
      case TimeoutExpired(phase) => if phase == EntrySubmit then 11 else if phase == EntryFill then 12 else 13
      case ManualInterventionRequired(_) => 14;
  }

  /** Quantities and strings make no difference beyond what the samples show. */
  lemma SampleHasSameEffect(s: State, e: Event)
    requires Apply(s, e).Ok?
    ensures Takes(s, SampleFor(s, e), Next(s, e))
  {
  }

  /** The validator accepts exactly the idle, whitelisted and event-made transitions. */
  lemma ValidatorExact(prev: State, next: State)
    ensures IsAllowedTransition(prev, next)
       <==> prev == next || Whitelisted(prev, next) || exists e :: Takes(prev, e, next)
  {
    hide Apply, SampleFor;
    if e :| Takes(prev, e, next) {
      SampleHasSameEffect(prev, e);
      var i := SampleIsListed(prev, e);
      assert Takes(prev, SAMPLES[i], next);
    }
  }

  /** The transitions the validator lets pass, state by state. */
  function AllowedFrom(prev: State): set<State> {
    match prev
    case Flat => {Flat, SignalArmed, EntryPartial, ManualIntervention, Degraded}
    case SignalArmed => {SignalArmed, Flat, EntryPending, ManualIntervention, Degraded}
    case EntryPending => {EntryPending, Flat, EntryPartial, Open, ManualIntervention}
    case EntryPartial => {EntryPartial, Open, ManualIntervention}
    case Open => {Open, ExitPending, ManualIntervention, Degraded}
    case ExitPending => {ExitPending, Flat, ExitPartial, ManualIntervention}
    case ExitPartial => {ExitPartial, Flat, ManualIntervention}
    case ManualIntervention => {ManualIntervention}
    case Degraded => {Degraded, Flat, SignalArmed, Open, ManualIntervention}
  }

  lemma ValidatorTable(prev: State, next: State)
    ensures IsAllowedTransition(prev, next) <==> next in AllowedFrom(prev)
  {
    hide Apply, IsAllowedTransition, AllowedFrom, Whitelisted, Takes;
    ValidatorExact(prev, next);
    WhitelistedIsAllowed(prev, next);
    if next in AllowedFrom(prev) && prev != next && !Whitelisted(prev, next) {
      AllowedIsTaken(prev, next);
    }
    if e :| Takes(prev, e, next) {
      TakenIsAllowed(prev, e, next);
    }
  }

  lemma WhitelistedIsAllowed(prev: State, next: State)
    ensures prev == next || Whitelisted(prev, next) ==> next in AllowedFrom(prev)
  {
  }

  lemma AllowedIsTaken(prev: State, next: State)
    requires next in AllowedFrom(prev) && prev != next && !Whitelisted(prev, next)
    ensures Takes(prev, EventInto(prev, next), next)
  {
  }

  lemma TakenIsAllowed(prev: State, e: Event, next: State)
    requires Takes(prev, e, next)
    ensures next in AllowedFrom(prev)
  {
    hide Apply;
    if prev != next {
      EnteredExactly(next, prev, e);
    }
  }

  /** An event that makes an allowed transition outside the whitelist. */
  function EventInto(prev: State, next: State): Event {
    match next
    case Flat =>
      if prev == SignalArmed then TimeoutExpired(EntrySubmit)
      else if prev == EntryPending then TimeoutExpired(EntryFill)
      else BalanceReconciled(0)
    case SignalArmed => SignalTriggered("")
    case EntryPending => EntryOrderAccepted("")
    case EntryPartial => ExecutionNotice("", 1, 2)
    case Open => BalanceReconciled(1)
    case ExitPending => ExitRequested("")
    case ExitPartial => BalanceReconciled(1)
    case _ => ManualInterventionRequired("")
  }

  /** An exit state returns to Flat on a zero balance and on nothing else. */
  lemma ExitClosesOnlyOnZeroBalance(s: State, e: Event)
    requires s == ExitPending || s == ExitPartial
    ensures Next(s, e) == Flat <==> e == BalanceReconciled(0)
  {
  }

  // ---------------------------------------------------------------------------
  // Timeout policy
  // ---------------------------------------------------------------------------

  /** Waiting limits in milliseconds. */
  datatype TimeoutPolicy = TimeoutPolicy(entrySubmit: nat, entryFill: nat, exitFill: nat)

  const PAPER_DEFAULTS := TimeoutPolicy(2000, 30000, 5000)
  const REAL_DEFAULTS := TimeoutPolicy(2000, 3000, 5000)

  function NextTimeoutFor(s: State, p: TimeoutPolicy): Option<(TimeoutPhase, nat)> {
    match s
    case SignalArmed => Some((EntrySubmit, p.entrySubmit))
    case EntryPending | EntryPartial => Some((EntryFill, p.entryFill))
    case ExitPending | ExitPartial => Some((ExitFill, p.exitFill))
    case Flat | Open | ManualIntervention | Degraded => None
  }

  /** The timer armed in a state fires into an accepted event that ends in a timer-free state. */
  lemma ArmedTimerIsAcceptedAndFinal(s: State, p: TimeoutPolicy)
    requires NextTimeoutFor(s, p).Some?
    ensures var e := TimeoutExpired(NextTimeoutFor(s, p).value.0);
            && Apply(s, e).Ok?
            && Next(s, e) == (if s == SignalArmed || s == EntryPending then Flat else ManualIntervention)
            && NextTimeoutFor(Next(s, e), p).None?
  {
  }

  /** Which timer runs in which state, and for how long. */
  lemma TimersByState(s: State, p: TimeoutPolicy)
    ensures NextTimeoutFor(s, p) == Some((EntrySubmit, p.entrySubmit)) <==> s == SignalArmed
    ensures (s == EntryPending || s == EntryPartial) ==> NextTimeoutFor(s, p) == Some((EntryFill, p.entryFill))
    ensures (s == ExitPending || s == ExitPartial) ==> NextTimeoutFor(s, p) == Some((ExitFill, p.exitFill))
    ensures NextTimeoutFor(s, p) == None <==> s in {Flat, Open, ManualIntervention, Degraded}
  {
  }

  /** The shipped limits in milliseconds: submission, entry fill, exit fill. */
  lemma ShippedTimers()
    ensures NextTimeoutFor(SignalArmed, PAPER_DEFAULTS) == NextTimeoutFor(SignalArmed, REAL_DEFAULTS) == Some((EntrySubmit, 2 * 1000))
    ensures NextTimeoutFor(EntryPending, PAPER_DEFAULTS) == Some((EntryFill, 30 * 1000))
    ensures NextTimeoutFor(EntryPending, REAL_DEFAULTS) == Some((EntryFill, 3 * 1000))
    ensures NextTimeoutFor(ExitPending, PAPER_DEFAULTS) == NextTimeoutFor(ExitPending, REAL_DEFAULTS) == Some((ExitFill, 5 * 1000))
  {
  }
}

/**
 The periodic comparison of the runner's share count with the broker's balance: a retrying
 confirmation loop, a per-stock streak of inconclusive cycles, and escalation to manual.
 Each cycle is one atomic step.
 */
module Reconciliation {
  import opened Wrappers

  // ---------------------------------------------------------------------------
  // Confirmation
  // ---------------------------------------------------------------------------

  type Fetch = Result<nat, string>

  /** One error per attempt, each with the number of its attempt. */
  type ConfirmResult = Result<nat, seq<(nat, string)>>

  function Attempts(configured: nat): (n: nat)
    ensures n >= 1
  {
    if configured < 1 then 1 else configured
  }

  /** The answer of the loop is one of three, told apart by the fetches it may make. */
  ghost predicate IsConfirmation(expected: nat, configured: nat, fetch: nat -> Fetch, r: ConfirmResult) {
    var n := Attempts(configured);
    if exists i :: 0 <= i < n && fetch(i) == Ok(expected) then
      r == Ok(expected)
    else if exists i :: 0 <= i < n && fetch(i).Ok? then
      exists i :: 0 <= i < n && IsLastSuccess(n, fetch, i) && r == Ok(fetch(i).value)
    else
      && r.Err?
      && |r.error| == n
      && forall i :: 0 <= i < n ==> fetch(i).Err? && r.error[i] == (i + 1, fetch(i).error)
  }

  ghost predicate IsLastSuccess(n: nat, fetch: nat -> Fetch, i: nat)
    requires i < n
  {
    fetch(i).Ok? && forall j :: i < j < n ==> fetch(j).Err?
  }

  /**
   Up to `configured` fetches (at least one), stopping at the first that returns the expected
   quantity; `used` counts the fetches made.
   */
  method ConfirmReconcileQty(expected: nat, configured: nat, fetch: nat -> Fetch)
    returns (r: ConfirmResult, used: nat)
    ensures IsConfirmation(expected, configured, fetch, r)
    ensures 1 <= used <= Attempts(configured)
    ensures forall i :: 0 <= i < used - 1 ==> fetch(i) != Ok(expected)
    ensures used < Attempts(configured) ==> fetch(used - 1) == Ok(expected)
  {
    var attempts := Attempts(configured);
    var lastSuccessful: Option<nat> := None;
    var errors: seq<(nat, string)> := [];
    ghost var last := 0;
    for attempt := 0 to attempts
      invariant forall i :: 0 <= i < attempt ==> fetch(i) != Ok(expected)
      invariant lastSuccessful.Some? ==>
                  last < attempt && fetch(last) == Ok(lastSuccessful.value)
                  && forall j :: last < j < attempt ==> fetch(j).Err?
      invariant lastSuccessful.None? ==>
                  |errors| == attempt
                  && forall i :: 0 <= i < attempt ==> fetch(i).Err? && errors[i] == (i + 1, fetch(i).error)
    {
      match fetch(attempt) {
        case Ok(qty) =>
          lastSuccessful := Some(qty);
          last := attempt;
          if qty == expected {
            return Ok(qty), attempt + 1;
          }
        case Err(e) =>
          errors := errors + [(attempt + 1, e)];
      }
    }
    used := attempts;
    match lastSuccessful {
      case Some(q) =>
        assert IsLastSuccess(attempts, fetch, last);
        r := Ok(q);
      case None =>
        r := Err(errors);
    }
  }

  /** The three-way description leaves no freedom: it determines the answer. */
  lemma ConfirmationIsUnique(expected: nat, configured: nat, fetch: nat -> Fetch, r: ConfirmResult, r': ConfirmResult)
    requires IsConfirmation(expected, configured, fetch, r)
    requires IsConfirmation(expected, configured, fetch, r')
    ensures r == r'
  {
    var n := Attempts(configured);
    if exists i :: 0 <= i < n && fetch(i) == Ok(expected) {
    } else if exists i :: 0 <= i < n && fetch(i).Ok? {
      var i :| 0 <= i < n && IsLastSuccess(n, fetch, i) && r == Ok(fetch(i).value);
      var j :| 0 <= j < n && IsLastSuccess(n, fetch, j) && r' == Ok(fetch(j).value);
      assert i == j;
    } else {
      assert r.error == r'.error;
    }
  }

  /** The confirmation as a function: the answer after attempts i, i+1, ... */
  function Confirmed(expected: nat, n: nat, fetch: nat -> Fetch, i: nat, last: Option<nat>, errors: seq<(nat, string)>): ConfirmResult
    requires i <= n
    decreases n - i
  {
    if i == n then (if last.Some? then Ok(last.value) else Err(errors))
    else
      match fetch(i)
      case Ok(qty) => if qty == expected then Ok(qty) else Confirmed(expected, n, fetch, i + 1, Some(qty), errors)
      case Err(e) => Confirmed(expected, n, fetch, i + 1, last, errors + [(i + 1, e)])
  }

  function Confirm(expected: nat, configured: nat, fetch: nat -> Fetch): ConfirmResult {
    Confirmed(expected, Attempts(configured), fetch, 0, None, [])
  }

  /** What the loop knows before attempt `i`: no match, and the last success at `at` or an error each time. */
  ghost predicate SoFar(expected: nat, fetch: nat -> Fetch, i: nat, last: Option<nat>, errors: seq<(nat, string)>, at: nat) {
    && (forall k :: 0 <= k < i ==> fetch(k) != Ok(expected))
    && (last.Some? ==> at < i && fetch(at) == Ok(last.value) && forall j :: at < j < i ==> fetch(j).Err?)
    && (last.None? ==>
          && |errors| == i
          && forall k :: 0 <= k < i ==> fetch(k).Err? && errors[k] == (k + 1, fetch(k).error))
  }

  lemma MissKeepsSoFar(expected: nat, fetch: nat -> Fetch, i: nat, last: Option<nat>, errors: seq<(nat, string)>, at: nat)
    requires SoFar(expected, fetch, i, last, errors, at) && fetch(i) != Ok(expected)
    ensures match fetch(i)
            case Ok(qty) => SoFar(expected, fetch, i + 1, Some(qty), errors, i)
            case Err(e) => SoFar(expected, fetch, i + 1, last, errors + [(i + 1, e)], at)
  {
  }

  lemma MatchConfirms(expected: nat, n: nat, fetch: nat -> Fetch, i: nat)
    requires i < n && fetch(i) == Ok(expected)
    ensures IsConfirmation(expected, n, fetch, Ok(expected))
  {
  }

  lemma EndConfirms(expected: nat, n: nat, fetch: nat -> Fetch, last: Option<nat>, errors: seq<(nat, string)>, at: nat)
    requires n >= 1 && SoFar(expected, fetch, n, last, errors, at)
    ensures IsConfirmation(expected, n, fetch, if last.Some? then Ok(last.value) else Err(errors))
  {
    if last.Some? {
      assert IsLastSuccess(n, fetch, at);
    }
  }

  lemma {:induction false} ConfirmedFromMiddle(expected: nat, n: nat, fetch: nat -> Fetch, i: nat,
                                               last: Option<nat>, errors: seq<(nat, string)>, at: nat)
    requires i <= n && n >= 1 && SoFar(expected, fetch, i, last, errors, at)
    ensures IsConfirmation(expected, n, fetch, Confirmed(expected, n, fetch, i, last, errors))
    decreases n - i
  {
    hide SoFar, IsConfirmation;
    if i == n {
      EndConfirms(expected, n, fetch, last, errors, at);
    } else if fetch(i) == Ok(expected) {
      MatchConfirms(expected, n, fetch, i);
    } else {
      MissKeepsSoFar(expected, fetch, i, last, errors, at);
      match fetch(i)
      case Ok(qty) => ConfirmedFromMiddle(expected, n, fetch, i + 1, Some(qty), errors, i);
      case Err(e) => ConfirmedFromMiddle(expected, n, fetch, i + 1, last, errors + [(i + 1, e)], at);
    }
  }

  lemma ConfirmIsConfirmation(expected: nat, configured: nat, fetch: nat -> Fetch)
    ensures IsConfirmation(expected, configured, fetch, Confirm(expected, configured, fetch))
  {
    ConfirmedFromMiddle(expected, Attempts(configured), fetch, 0, None, [], 0);
  }

  // ---------------------------------------------------------------------------
  // Decision
  // ---------------------------------------------------------------------------

  datatype Decision =
    | AlreadyMatched
    | Recovered(confirmedQty: nat)
    | Mismatch(confirmedQty: nat)
    | Inconclusive(streak: nat)
    | InconclusiveEscalated(streak: nat)

  function ClassifyOutcome(runnerQty: nat, initialQty: nat, confirm: ConfirmResult, streakAfterBump: nat): Decision {
    if runnerQty == initialQty then AlreadyMatched
    else
      match confirm
      case Ok(qty) => if qty == runnerQty then Recovered(qty) else Mismatch(qty)
      case Err(_) =>
        if streakAfterBump >= 3 then InconclusiveEscalated(streakAfterBump) else Inconclusive(streakAfterBump)
  }

  datatype LockState =
    | Free
    | Pending(code: string, preempted: bool)
    | Held(holder: string)
    | ManualHeld(owner: string)

  predicate ShouldSkipForLock(lock: LockState, code: string) {
    (lock.Pending? && lock.code == code) || (lock.ManualHeld? && lock.owner == code)
  }

  /** A stop takes the shared lock, unless another stock holds it. */
  function LockAfterStop(lock: LockState, code: string): LockState {
    match lock
    case Held(holder) => if holder == code then ManualHeld(code) else lock
    case ManualHeld(owner) => lock
    case Free | Pending(_, _) => ManualHeld(code)
  }

  // ---------------------------------------------------------------------------
  // One cycle
  // ---------------------------------------------------------------------------

  /** A runner as a cycle finds it, with the balances it would fetch for it. */
  datatype Runner = Runner(code: string, runnerQty: nat, settling: bool, fetch: nat -> Fetch)

  /** What a cycle reads about one runner, the lock included. */
  datatype Observation = Observation(
    code: string, runnerQty: nat, settling: bool, lock: LockState, fetch: nat -> Fetch)

  function Seen(r: Runner, lock: LockState): Observation {
    Observation(r.code, r.runnerQty, r.settling, lock, r.fetch)
  }

  datatype CodeState = CodeState(streak: nat, manual: bool)

  function InitialQty(holdings: map<string, nat>, code: string): nat {
    if code in holdings then holdings[code] else 0
  }

  /** The effect of one cycle on one stock. */
  function CodeStep(s: CodeState, initialQty: nat, o: Observation, configured: nat): CodeState {
    if s.manual then s
    else if o.settling then s.(streak := 0)
    else if ShouldSkipForLock(o.lock, o.code) then s
    else if o.runnerQty == initialQty then s.(streak := 0)
    else
      var confirm := Confirm(o.runnerQty, configured, o.fetch);
      var streak := if confirm.Ok? then 0 else s.streak + 1;
      match ClassifyOutcome(o.runnerQty, initialQty, confirm, streak)
      case AlreadyMatched => CodeState(0, false)
      case Recovered(_) => CodeState(streak, false)
      case Mismatch(_) => CodeState(streak, true)
      case Inconclusive(_) => CodeState(streak, false)
      case InconclusiveEscalated(_) => CodeState(0, true)
  }

  predicate DistinctCodes(rs: seq<Runner>) {
    forall i, j :: 0 <= i < j < |rs| ==> rs[i].code != rs[j].code
  }

  /** All that a cycle changes: the state of every stock and the lock they share. */
  datatype Book = Book(streaks: map<string, nat>, manual: set<string>, lock: LockState)
  {
    /** An absent stock has streak 0. */
    function StateOf(code: string): CodeState {
      CodeState(if code in streaks then streaks[code] else 0, code in manual)
    }
  }

  predicate Stops(s: CodeState, initialQty: nat, o: Observation, configured: nat) {
    !s.manual && CodeStep(s, initialQty, o, configured).manual
  }

  /** The lock when a cycle comes to its i-th runner. */
  function LockBefore(b: Book, holdings: map<string, nat>, rs: seq<Runner>, configured: nat, i: nat): LockState
    requires i <= |rs|
  {
    if i == 0 then b.lock
    else
      var lock := LockBefore(b, holdings, rs, configured, i - 1);
      if StopsRunner(b, holdings, rs, configured, i - 1, lock) then LockAfterStop(lock, rs[i - 1].code) else lock
  }

  predicate StopsRunner(b: Book, holdings: map<string, nat>, rs: seq<Runner>, configured: nat, i: nat, lock: LockState)
    requires i < |rs|
  {
    Stops(b.StateOf(rs[i].code), InitialQty(holdings, rs[i].code), Seen(rs[i], lock), configured)
  }

  /** The cycle stops its i-th runner. */
  predicate StoppedInCycle(b: Book, holdings: map<string, nat>, rs: seq<Runner>, configured: nat, i: nat)
    requires i < |rs|
  {
    StopsRunner(b, holdings, rs, configured, i, LockBefore(b, holdings, rs, configured, i))
  }

  const MARKET_START := 32400
  const MARKET_END := 56100

  class StrategyManager {
    const configuredAttempts: nat
    /** Inconclusive streaks; an absent stock has streak 0. */
    var streaks: map<string, nat>
    /** Stocks whose runner was stopped for manual intervention. */
    var manual: set<string>
    /** The position lock shared by all stocks. */
    var lock: LockState

    constructor (attempts: nat)
      ensures configuredAttempts == attempts
      ensures Now() == Book(map[], {}, Free)
    {
      configuredAttempts, streaks, manual, lock := attempts, map[], {}, Free;
    }

    function Now(): Book
      reads this
    {
      Book(streaks, manual, lock)
    }

    method BumpStreak(code: string) returns (streak: nat)
      modifies this`streaks
      ensures streak == old(Now()).StateOf(code).streak + 1
      ensures OneStateChanged(old(Now()), code, old(Now()).StateOf(code).(streak := streak), Now()) && lock == old(lock)
    {
      streak := (if code in streaks then streaks[code] else 0) + 1;
      streaks := streaks[code := streak];
    }

    method ResetStreak(code: string)
      modifies this`streaks
      ensures OneStateChanged(old(Now()), code, old(Now()).StateOf(code).(streak := 0), Now()) && lock == old(lock)
    {
      streaks := streaks - {code};
    }

    /** The runner stops, and the shared lock is taken unless another stock holds it. */
    method EnterManual(code: string)
      modifies this`manual, this`lock
      ensures OneStateChanged(old(Now()), code, old(Now()).StateOf(code).(manual := true), Now())
      ensures lock == LockAfterStop(old(lock), code)
    {
      manual := manual + {code};
      match lock {
        case Held(holder) =>
          if holder == code {
            lock := ManualHeld(code);
          }
        case ManualHeld(_) =>
        case Free =>
          lock := ManualHeld(code);
        case Pending(_, _) =>
          lock := ManualHeld(code);
      }
    }

    method ReconcileCode(initialQty: nat, r: Runner)
      modifies this`streaks, this`manual, this`lock
      ensures RunnerDone(old(Now()), initialQty, r, configuredAttempts, Now())
    {
      hide Confirm, IsConfirmation, LockAfterStop;
      if r.code in manual {
        return;
      }
      if r.settling {
        ResetStreak(r.code);
        return;
      }
      if ShouldSkipForLock(lock, r.code) {
        return;
      }
      if ClassifyOutcome(r.runnerQty, initialQty, Err([]), 0) == AlreadyMatched {
        ResetStreak(r.code);
        return;
      }
      var confirm, used := ConfirmReconcileQty(r.runnerQty, configuredAttempts, r.fetch);
      ConfirmIsConfirmation(r.runnerQty, configuredAttempts, r.fetch);
      ConfirmationIsUnique(r.runnerQty, configuredAttempts, r.fetch, confirm,
                           Confirm(r.runnerQty, configuredAttempts, r.fetch));
      var streak := 0;
      if confirm.Ok? {
        ResetStreak(r.code);
      } else {
        streak := BumpStreak(r.code);
      }
      match ClassifyOutcome(r.runnerQty, initialQty, confirm, streak) {
        case AlreadyMatched =>
          // The check before the confirmation rules this arm out.
          assert false;
        case Recovered(_) =>
        case Mismatch(_) =>
          EnterManual(r.code);
        case Inconclusive(_) =>
        case InconclusiveEscalated(_) =>
          ResetStreak(r.code);
          EnterManual(r.code);
      }
    }

    /**
     One cycle over all runners, in the order in which their map yields them.  Outside market
     hours, without runners or client, or when the first balance query fails, nothing changes.
     */
    method ReconcileOnce(now: nat, hasClient: bool, balance: Option<map<string, nat>>, runners: seq<Runner>)
      requires DistinctCodes(runners)
      modifies this`streaks, this`manual, this`lock
      ensures Runs(now, hasClient, balance) ==>
                CycleDone(old(Now()), balance.value, runners, configuredAttempts, |runners|, Now())
      ensures !Runs(now, hasClient, balance) ==> Now() == old(Now())
    {
      hide CycleDone, RunnerDone, InitialQty, DistinctCodes;
      if balance.Some? {
        NothingDone(Now(), balance.value, runners, configuredAttempts);
      }
      if now < MARKET_START || now > MARKET_END {
        return;
      }
      if |runners| == 0 {
        return;
      }
      if !hasClient {
        return;
      }
      if balance.None? {
        return;
      }
      for k := 0 to |runners|
        invariant CycleDone(old(Now()), balance.value, runners, configuredAttempts, k, Now())
      {
        ghost var mid := Now();
        ReconcileCode(InitialQty(balance.value, runners[k].code), runners[k]);
        OneMoreDone(old(Now()), balance.value, runners, configuredAttempts, k, mid, Now());
      }
    }
  }

  ghost predicate OneStateChanged(b: Book, code: string, s: CodeState, after: Book) {
    && after.StateOf(code) == s
    && forall c :: c != code ==> after.StateOf(c) == b.StateOf(c)
  }

  /** The runner's stock stepped under the lock as it was, no other stock did, and a stop took the lock. */
  ghost predicate RunnerDone(b: Book, initialQty: nat, r: Runner, configured: nat, after: Book) {
    && OneStateChanged(b, r.code, CodeStep(b.StateOf(r.code), initialQty, Seen(r, b.lock), configured), after)
    && after.lock == if Stops(b.StateOf(r.code), initialQty, Seen(r, b.lock), configured)
                     then LockAfterStop(b.lock, r.code) else b.lock
  }

  /** `after` is the book once the first `n` runners were reconciled: each stepped, in its turn, under the lock as it then was. */
  ghost predicate CycleDone(b: Book, holdings: map<string, nat>, rs: seq<Runner>, configured: nat, n: nat, after: Book)
    requires n <= |rs|
  {
    && (forall i :: 0 <= i < n ==> after.StateOf(rs[i].code) == StateInTurn(b, holdings, rs, configured, i))
    && (forall c :: !Among(rs, n, c) ==> after.StateOf(c) == b.StateOf(c))
    && after.lock == LockBefore(b, holdings, rs, configured, n)
  }

  predicate Among(rs: seq<Runner>, n: nat, code: string)
    requires n <= |rs|
  {
    exists i :: 0 <= i < n && rs[i].code == code
  }

  function StateInTurn(b: Book, holdings: map<string, nat>, rs: seq<Runner>, configured: nat, i: nat): CodeState
    requires i < |rs|
  {
    CodeStep(b.StateOf(rs[i].code), InitialQty(holdings, rs[i].code),
             Seen(rs[i], LockBefore(b, holdings, rs, configured, i)), configured)
  }

  lemma NothingDone(b: Book, holdings: map<string, nat>, rs: seq<Runner>, configured: nat)
    ensures CycleDone(b, holdings, rs, configured, 0, b)
  {
    hide CodeStep, Book.StateOf;
  }

  lemma AmongNext(rs: seq<Runner>, k: nat, code: string)
    requires k < |rs|
    ensures Among(rs, k + 1, code) <==> Among(rs, k, code) || rs[k].code == code
    ensures DistinctCodes(rs) ==> !Among(rs, k, rs[k].code)
    ensures forall i :: 0 <= i < k && DistinctCodes(rs) ==> rs[i].code != rs[k].code
  {
  }

  lemma LockNext(b: Book, holdings: map<string, nat>, rs: seq<Runner>, configured: nat, k: nat)
    requires k < |rs|
    ensures var (lock, code) := (LockBefore(b, holdings, rs, configured, k), rs[k].code);
            LockBefore(b, holdings, rs, configured, k + 1)
            == if Stops(b.StateOf(code), InitialQty(holdings, code), Seen(rs[k], lock), configured)
               then LockAfterStop(lock, code) else lock
  {
    hide Stops, Book.StateOf, InitialQty, LockAfterStop;
  }

  lemma OneMoreDone(b: Book, holdings: map<string, nat>, rs: seq<Runner>, configured: nat, k: nat, mid: Book, after: Book)
    requires k < |rs| && DistinctCodes(rs) && CycleDone(b, holdings, rs, configured, k, mid)
    requires RunnerDone(mid, InitialQty(holdings, rs[k].code), rs[k], configured, after)
    ensures CycleDone(b, holdings, rs, configured, k + 1, after)
  {
    hide CodeStep, Book.StateOf, LockAfterStop, Stops, InitialQty, Seen, LockBefore, Among, DistinctCodes;
    AmongNext(rs, k, rs[k].code);
    LockNext(b, holdings, rs, configured, k);
    forall c | !Among(rs, k + 1, c) ensures after.StateOf(c) == b.StateOf(c) {
      AmongNext(rs, k, c);
    }
  }

  predicate Runs(now: nat, hasClient: bool, balance: Option<map<string, nat>>) {
    MARKET_START <= now <= MARKET_END && hasClient && balance.Some?
  }

  // ---------------------------------------------------------------------------
  // Many cycles of one stock
  // ---------------------------------------------------------------------------

  /** A cycle as one stock sees it: not run at all, or run with this balance and observation. */
  datatype Cycle = NotRun | Ran(initialQty: nat, o: Observation)

  function CycleStep(s: CodeState, c: Cycle, configured: nat): CodeState {
    match c
    case NotRun => s
    case Ran(initialQty, o) => CodeStep(s, initialQty, o, configured)
  }

  function AfterCycles(s: CodeState, cs: seq<Cycle>, configured: nat): CodeState {
    if cs == [] then s
    else CycleStep(AfterCycles(s, cs[..|cs| - 1], configured), cs[|cs| - 1], configured)
  }

  /** The cycle compares quantities: neither the settle window nor the lock takes it out. */
  predicate Compares(c: Cycle) {
    c.Ran? && !c.o.settling && !ShouldSkipForLock(c.o.lock, c.o.code)
  }

  /** Neither the first balance nor any fetch of the cycle shows the runner's quantity. */
  ghost predicate NothingMatches(c: Cycle, configured: nat)
    requires c.Ran?
  {
    && c.initialQty != c.o.runnerQty
    && forall i :: 0 <= i < Attempts(configured) ==> c.o.fetch(i) != Ok(c.o.runnerQty)
  }

  ghost predicate AllFetchesFail(c: Cycle, configured: nat)
    requires c.Ran?
  {
    forall i :: 0 <= i < Attempts(configured) ==> c.o.fetch(i).Err?
  }

  ghost predicate IsInconclusive(c: Cycle, configured: nat) {
    Compares(c) && c.initialQty != c.o.runnerQty && AllFetchesFail(c, configured)
  }

  /** A cycle sets the streak back: a settle window, or any sight of a balance while comparing. */
  ghost predicate Resets(c: Cycle, configured: nat) {
    && c.Ran?
    && (c.o.settling || (Compares(c) && !IsInconclusive(c, configured)))
  }

  /**
   A cycle stops a running stock exactly when it compares, nothing it fetched shows the
   runner's quantity, and either some fetch succeeded or this is the third inconclusive cycle.
   */
  lemma StopExactly(s: CodeState, c: Cycle, configured: nat)
    requires !s.manual
    ensures CycleStep(s, c, configured).manual <==>
              && Compares(c)
              && NothingMatches(c, configured)
              && (AllFetchesFail(c, configured) ==> s.streak >= 2)
  {
    if c.Ran? {
      ConfirmIsConfirmation(c.o.runnerQty, configured, c.o.fetch);
    }
  }

  lemma StreakStep(s: CodeState, c: Cycle, configured: nat)
    requires !s.manual
    ensures var t := CycleStep(s, c, configured);
            && (Resets(c, configured) ==> t.streak == 0)
            && (IsInconclusive(c, configured) ==> t == if s.streak >= 2 then CodeState(0, true) else CodeState(s.streak + 1, false))
            && (!Resets(c, configured) && !IsInconclusive(c, configured) ==> t == s)
  {
    if c.Ran? {
      ConfirmIsConfirmation(c.o.runnerQty, configured, c.o.fetch);
    }
  }

  ghost function InconclusiveCount(cs: seq<Cycle>, configured: nat): nat {
    if cs == [] then 0
    else InconclusiveCount(cs[..|cs| - 1], configured) + if IsInconclusive(cs[|cs| - 1], configured) then 1 else 0
  }

  /** `cs[r..]` is what happened since the last reset (or since the start). */
  ghost predicate SinceLastReset(cs: seq<Cycle>, r: nat, configured: nat)
    requires r <= |cs|
  {
    && (r > 0 ==> Resets(cs[r - 1], configured))
    && forall i :: r <= i < |cs| ==> !Resets(cs[i], configured)
  }

  /** No later cycle changes a stopped stock. */
  lemma StoppedStaysStopped(s: CodeState, cs: seq<Cycle>, last: Cycle, configured: nat)
    ensures AfterCycles(s, cs, configured).manual ==>
              AfterCycles(s, cs + [last], configured) == AfterCycles(s, cs, configured)
    ensures AfterCycles(s, cs + [last], configured) == CycleStep(AfterCycles(s, cs, configured), last, configured)
  {
    assert (cs + [last])[..|cs|] == cs;
  }

  /** While a stock runs, its streak is the number of inconclusive cycles since the last reset, below 3. */
  lemma {:induction false} StreakCountsInconclusiveCycles(cs: seq<Cycle>, configured: nat) returns (r: nat)
    requires !AfterCycles(CodeState(0, false), cs, configured).manual
    ensures r <= |cs| && SinceLastReset(cs, r, configured)
    ensures AfterCycles(CodeState(0, false), cs, configured).streak == InconclusiveCount(cs[r..], configured) <= 2
  {
    r := 0;
    if cs != [] {
      var front, last := cs[..|cs| - 1], cs[|cs| - 1];
      var s := AfterCycles(CodeState(0, false), front, configured);
      StoppedStaysStopped(CodeState(0, false), front, last, configured);
      assert cs == front + [last];
      StreakStep(s, last, configured);
      if Resets(last, configured) {
        r := |cs|;
      } else {
        r := StreakCountsInconclusiveCycles(front, configured);
        assert cs[r..][..|cs[r..]| - 1] == front[r..];
      }
    }
  }

  ghost function ComparingCount(cs: seq<Cycle>): nat {
    if cs == [] then 0 else ComparingCount(cs[..|cs| - 1]) + if Compares(cs[|cs| - 1]) then 1 else 0
  }

  /**
   Three comparing cycles without a match stop the stock by the third at the latest, however
   many cycles that were not run or were lock-skipped lie between them.
   */
  lemma {:induction false} ThirdUnmatchedCycleStops(s: CodeState, cs: seq<Cycle>, configured: nat)
    requires forall i :: 0 <= i < |cs| ==>
               cs[i].Ran? ==> !cs[i].o.settling && (Compares(cs[i]) ==> NothingMatches(cs[i], configured))
    ensures var t := AfterCycles(s, cs, configured);
            t.manual || t.streak >= s.streak + ComparingCount(cs)
    ensures ComparingCount(cs) >= 3 ==> AfterCycles(s, cs, configured).manual
  {
    if cs != [] {
      var front, last := cs[..|cs| - 1], cs[|cs| - 1];
      ThirdUnmatchedCycleStops(s, front, configured);
      var m := AfterCycles(s, front, configured);
      if !m.manual {
        StreakStep(m, last, configured);
        StopExactly(m, last, configured);
      }
    }
  }

  // ---------------------------------------------------------------------------
  // The shared lock within one cycle
  // ---------------------------------------------------------------------------

  ghost predicate SomeStopBefore(b: Book, holdings: map<string, nat>, rs: seq<Runner>, configured: nat, n: nat)
    requires n <= |rs|
  {
    exists i :: 0 <= i < n && StoppedInCycle(b, holdings, rs, configured, i)
  }

  lemma NoStopYet(b: Book, holdings: map<string, nat>, rs: seq<Runner>, configured: nat)
    ensures !SomeStopBefore(b, holdings, rs, configured, 0)
  {
  }

  lemma SomeStopNext(b: Book, holdings: map<string, nat>, rs: seq<Runner>, configured: nat, n: nat)
    requires n < |rs|
    ensures SomeStopBefore(b, holdings, rs, configured, n + 1)
       <==> SomeStopBefore(b, holdings, rs, configured, n) || StoppedInCycle(b, holdings, rs, configured, n)
  {
    hide StoppedInCycle;
  }

  /** The first runner that the cycle stops takes a lock that nobody holds; later stops leave it there. */
  lemma {:induction false} FirstStopTakesLock(b: Book, holdings: map<string, nat>, rs: seq<Runner>, configured: nat, n: nat)
    returns (first: nat)
    requires n <= |rs| && (b.lock.Free? || b.lock.Pending?)
    ensures !SomeStopBefore(b, holdings, rs, configured, n) ==> LockBefore(b, holdings, rs, configured, n) == b.lock
    ensures SomeStopBefore(b, holdings, rs, configured, n) ==>
              && first < n
              && StoppedInCycle(b, holdings, rs, configured, first)
              && !SomeStopBefore(b, holdings, rs, configured, first)
              && LockBefore(b, holdings, rs, configured, n) == ManualHeld(rs[first].code)
  {
    hide StopsRunner, SomeStopBefore;
    first := 0;
    if n == 0 {
      assert !SomeStopBefore(b, holdings, rs, configured, 0) by { NoStopYet(b, holdings, rs, configured); }
    } else {
      SomeStopNext(b, holdings, rs, configured, n - 1);
      first := FirstStopTakesLock(b, holdings, rs, configured, n - 1);
      if !SomeStopBefore(b, holdings, rs, configured, n - 1) {
        first := n - 1;
      }
    }
  }

  /** A lock held by a stock changes hands in no cycle; it turns manual when that stock itself is stopped. */
  lemma {:induction false} HeldLockStays(b: Book, holdings: map<string, nat>, rs: seq<Runner>, configured: nat, n: nat)
    requires n <= |rs|
    ensures b.lock.ManualHeld? ==> LockBefore(b, holdings, rs, configured, n) == b.lock
    ensures b.lock.Held? ==>
              LockBefore(b, holdings, rs, configured, n)
              == if exists i :: 0 <= i < n && rs[i].code == b.lock.holder && StoppedInCycle(b, holdings, rs, configured, i)
                 then ManualHeld(b.lock.holder) else b.lock
  {
    hide StopsRunner;
    if n > 0 {
      HeldLockStays(b, holdings, rs, configured, n - 1);
    }
  }

  /**
   A runner whose entry order is pending when the cycle begins is normally skipped.  It is stopped
   exactly when an earlier stop of the same cycle has overwritten its claim on the lock, and its
   own comparison calls for a stop.
   */
  lemma PendingRunnerStopsExactly(b: Book, holdings: map<string, nat>, rs: seq<Runner>, configured: nat, i: nat)
    requires DistinctCodes(rs) && i < |rs|
    requires b.lock.Pending? && b.lock.code == rs[i].code
    ensures StoppedInCycle(b, holdings, rs, configured, i) <==>
              && SomeStopBefore(b, holdings, rs, configured, i)
              && Stops(b.StateOf(rs[i].code), InitialQty(holdings, rs[i].code), Seen(rs[i], Free), configured)
  {
    hide Book.StateOf, LockBefore, Stops, SomeStopBefore;
    var first := FirstStopTakesLock(b, holdings, rs, configured, i);
    assert SomeStopBefore(b, holdings, rs, configured, i) ==> rs[first].code != rs[i].code;
    var lock := LockBefore(b, holdings, rs, configured, i);
    assert ShouldSkipForLock(lock, rs[i].code) <==> !SomeStopBefore(b, holdings, rs, configured, i);
    LockMattersOnlyForSkipping(b.StateOf(rs[i].code), InitialQty(holdings, rs[i].code), rs[i], lock, configured);
    assert StoppedInCycle(b, holdings, rs, configured, i)
      <==> Stops(b.StateOf(rs[i].code), InitialQty(holdings, rs[i].code), Seen(rs[i], lock), configured);
  }

  lemma LockMattersOnlyForSkipping(s: CodeState, initialQty: nat, r: Runner, lock: LockState, configured: nat)
    ensures Stops(s, initialQty, Seen(r, lock), configured) <==>
              !ShouldSkipForLock(lock, r.code) && Stops(s, initialQty, Seen(r, Free), configured)
  {
    hide Confirm, ClassifyOutcome;
  }

  // ---------------------------------------------------------------------------
  // The decision in plain terms
  // ---------------------------------------------------------------------------

  /** As many attempts as configured, and one where none is. */
  lemma AttemptsAsConfigured(configured: nat)
    ensures configured >= 1 ==> Attempts(configured) == configured
    ensures Attempts(0) == 1
  {
  }

  /** A stock is skipped exactly while its own order is pending or it holds the lock manually. */
  lemma SkippedExactly(lock: LockState, code: string)
    ensures ShouldSkipForLock(lock, code) <==>
              lock == ManualHeld(code) || lock == Pending(code, true) || lock == Pending(code, false)
  {
  }

  /** A stock that the balance does not list counts as holding nothing, so a runner without shares is left alone. */
  lemma UnlistedStockHoldsNothing(s: CodeState, holdings: map<string, nat>, o: Observation, configured: nat)
    requires o.code !in holdings && !s.manual
    ensures o.runnerQty == 0 ==> !CodeStep(s, InitialQty(holdings, o.code), o, configured).manual
    ensures var c := Ran(0, o);
            Compares(c) && NothingMatches(c, configured) && !AllFetchesFail(c, configured) ==>
              CodeStep(s, InitialQty(holdings, o.code), o, configured).manual
  {
    hide CodeStep, NothingMatches, AllFetchesFail;
    var c := Ran(0, o);
    assert InitialQty(holdings, o.code) == 0;
    StopExactly(s, c, configured);
    assert CycleStep(s, c, configured) == CodeStep(s, 0, o, configured);
    if o.runnerQty == 0 {
      MatchedAtOnce(c, configured);
    }
  }

  lemma MatchedAtOnce(c: Cycle, configured: nat)
    requires c.Ran? && c.initialQty == c.o.runnerQty
    ensures !NothingMatches(c, configured)
  {
  }

  /** Cycles run from 09:00:00 to 15:35:00, with a client and a balance. */
  lemma RunsInMarketHours(now: nat, hasClient: bool, balance: Option<map<string, nat>>)
    ensures Runs(now, hasClient, balance) <==> 9 * 3600 <= now <= 15 * 3600 + 35 * 60 && hasClient && balance.Some?
  {
  }

  /** What each decision says about the balances seen. */
  lemma DecisionByFetches(runnerQty: nat, initialQty: nat, configured: nat, fetch: nat -> Fetch, streak: nat)
    ensures var n := Attempts(configured);
            var seen := exists i :: 0 <= i < n && fetch(i) == Ok(runnerQty);
            var allFail := forall i :: 0 <= i < n ==> fetch(i).Err?;
            match ClassifyOutcome(runnerQty, initialQty, Confirm(runnerQty, configured, fetch), streak)
            case AlreadyMatched => initialQty == runnerQty
            case Recovered(qty) => initialQty != runnerQty && seen && qty == runnerQty
            case Mismatch(qty) =>
              && initialQty != runnerQty && !seen
              && exists i :: 0 <= i < n && IsLastSuccess(n, fetch, i) && fetch(i) == Ok(qty)
            case Inconclusive(k) => initialQty != runnerQty && allFail && k == streak < 3
            case InconclusiveEscalated(k) => initialQty != runnerQty && allFail && k == streak >= 3
  {
    hide Confirm;
    ConfirmIsConfirmation(runnerQty, configured, fetch);
  }
}

/** The decision taken at restart from the saved row, the balance and an order query. */
module RestartRecovery {
  import opened Wrappers
  import opened Trades

  datatype SavedState =
    | SavedFlat
    | SavedEntryPending(orderNo: string, side: Side, entryPrice: int, quantity: nat)
    | SavedEntryPartial(orderNo: string, side: Side, entryPrice: int, quantity: nat)
    | SavedOpen(side: Side, entryPrice: int, stopLoss: int, takeProfit: int, quantity: nat, tpOrderNo: Option<string>)
    | SavedExitPending(side: Side, entryPrice: int, stopLoss: int, takeProfit: int, quantity: nat)
    | SavedExitPartial(side: Side, entryPrice: int, stopLoss: int, takeProfit: int, quantity: nat)
    | SavedManual(side: Side, entryPrice: int, stopLoss: int, takeProfit: int, quantity: nat)

  datatype Holdings =
    | NoShares
    | Present(qty: nat, avgPrice: Option<int>)
    | LookupFailed(reason: string)

  datatype QuerySummary =
    | NotApplicable
    | Filled(qty: nat, avgPrice: int)
    | Unfilled
    | Cancelled
    | QueryFailed(reason: string)

  datatype RestartInput = RestartInput(
    saved: Option<SavedState>, holdings: Holdings, query: QuerySummary, hasStaleOrders: bool)

  datatype RestartAction =
    | OrphanCleanup
    | OrphanHoldingDetected(qty: nat, avgPrice: Option<int>)
    | ManualFailSafe(reason: string)
    | ManualRestore(qty: nat)
    | EntryPendingManualRestore(qty: nat)
    | EntryPendingAutoClear
    | EntryPendingManualOnQueryFail(reason: string)
    | ExitPendingManualRestore(qty: nat)
    | ExitPendingAutoFlat
    | OpenPositionRestore(qty: nat, side: Side, entryPrice: int, stopLoss: int, takeProfit: int)
    | OpenPhantomCleanup
  {
    predicate RequiresManual() {
      || OrphanHoldingDetected? || ManualFailSafe? || ManualRestore? || EntryPendingManualRestore?
      || EntryPendingManualOnQueryFail? || ExitPendingManualRestore?
    }

    predicate IsCleanup() {
      OrphanCleanup? || EntryPendingAutoClear? || ExitPendingAutoFlat? || OpenPhantomCleanup?
    }
  }

  /** `None` stands for the arm the source declares unreachable. */
  function Classify(input: RestartInput): Option<RestartAction> {
    if input.holdings.LookupFailed? then Some(ManualFailSafe(input.holdings.reason))
    else if input.saved.Some? && input.saved.value.SavedManual? then
      Some(ManualRestore(input.saved.value.quantity))
    else
      match (input.saved, input.holdings)
      case (None, NoShares) => Some(OrphanCleanup)
      case (None, Present(qty, avg)) => Some(OrphanHoldingDetected(qty, avg))
      case (Some(SavedFlat), NoShares) => Some(OrphanCleanup)
      case (Some(SavedFlat), Present(qty, avg)) => Some(OrphanHoldingDetected(qty, avg))
      case (Some(SavedEntryPending(_, _, _, _)), Present(qty, _)) => Some(EntryPendingManualRestore(qty))
      case (Some(SavedEntryPartial(_, _, _, _)), Present(qty, _)) => Some(EntryPendingManualRestore(qty))
      case (Some(SavedEntryPending(_, _, _, _)), NoShares) => Some(AfterEmptyEntry(input.query))
      case (Some(SavedEntryPartial(_, _, _, _)), NoShares) => Some(AfterEmptyEntry(input.query))
      case (Some(SavedExitPending(_, _, _, _, _)), Present(qty, _)) => Some(ExitPendingManualRestore(qty))
      case (Some(SavedExitPartial(_, _, _, _, _)), Present(qty, _)) => Some(ExitPendingManualRestore(qty))
      case (Some(SavedExitPending(_, _, _, _, _)), NoShares) => Some(ExitPendingAutoFlat)
      case (Some(SavedExitPartial(_, _, _, _, _)), NoShares) => Some(ExitPendingAutoFlat)
      case (Some(SavedOpen(side, entry, stop, target, _, _)), Present(qty, _)) =>
        Some(OpenPositionRestore(qty, side, entry, stop, target))
      case (Some(SavedOpen(_, _, _, _, _, _)), NoShares) => Some(OpenPhantomCleanup)
      case (_, LookupFailed(_)) => None
      case (Some(SavedManual(_, _, _, _, _)), _) => None
  }

  function AfterEmptyEntry(query: QuerySummary): RestartAction {
    match query
    case QueryFailed(reason) => EntryPendingManualOnQueryFail(reason)
    case _ => EntryPendingAutoClear
  }

  predicate SavedAsManual(saved: Option<SavedState>) {
    saved.Some? && saved.value.SavedManual?
  }

  predicate SavedInEntry(saved: Option<SavedState>) {
    saved.Some? && (saved.value.SavedEntryPending? || saved.value.SavedEntryPartial?)
  }

  /**
   Every input is decided, each decision is exactly one of manual, cleanup and restore,
   and which one it is follows from the balance first and the saved row second.
   */
  lemma RestartDecision(input: RestartInput)
    ensures Classify(input).Some?
    ensures var a := Classify(input).value;
            && (a.IsCleanup() <==>
                  && input.holdings.NoShares?
                  && !SavedAsManual(input.saved)
                  && !(SavedInEntry(input.saved) && input.query.QueryFailed?))
            && (a.OpenPositionRestore? <==>
                  input.holdings.Present? && input.saved.Some? && input.saved.value.SavedOpen?)
            && (a.OpenPositionRestore? ==> a.qty == input.holdings.qty)
            && (a.RequiresManual() <==> !a.IsCleanup() && !a.OpenPositionRestore?)
  {
  }

  predicate NothingSaved(saved: Option<SavedState>) {
    saved == None || saved == Some(SavedFlat)
  }

  predicate SavedInExit(saved: Option<SavedState>) {
    saved.Some? && (saved.value.SavedExitPending? || saved.value.SavedExitPartial?)
  }

  predicate SavedAsOpen(saved: Option<SavedState>) {
    saved.Some? && saved.value.SavedOpen?
  }

  /** When each action is taken, and with which values. */
  lemma ActionsExactly(input: RestartInput)
    ensures Classify(input).Some?
    ensures var (saved, held, none) := (input.saved, input.holdings.Present?, input.holdings.NoShares?);
            match Classify(input).value
            case ManualFailSafe(reason) => input.holdings == LookupFailed(reason)
            case ManualRestore(qty) => (held || none) && SavedAsManual(saved) && qty == saved.value.quantity
            case OrphanCleanup => none && NothingSaved(saved)
            case OrphanHoldingDetected(qty, avg) => held && NothingSaved(saved) && input.holdings == Present(qty, avg)
            case EntryPendingManualRestore(qty) => held && SavedInEntry(saved) && qty == input.holdings.qty
            case EntryPendingManualOnQueryFail(reason) => none && SavedInEntry(saved) && input.query == QueryFailed(reason)
            case EntryPendingAutoClear => none && SavedInEntry(saved) && !input.query.QueryFailed?
            case ExitPendingManualRestore(qty) => held && SavedInExit(saved) && qty == input.holdings.qty
            case ExitPendingAutoFlat => none && SavedInExit(saved)
            case OpenPhantomCleanup => none && SavedAsOpen(saved)
            case OpenPositionRestore(qty, side, entry, stop, target) =>
              && held && SavedAsOpen(saved) && qty == input.holdings.qty
              && side == saved.value.side && entry == saved.value.entryPrice
              && stop == saved.value.stopLoss && target == saved.value.takeProfit
  {
  }
}

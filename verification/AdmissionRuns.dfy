/** Whole runs of the paper runtime through its dispatcher, and how exact the gate is. */
module AdmissionRuns {
  import opened Prelude
  import opened AverageCost
  import opened BrokerModels
  import opened Broker
  import opened BrokerLedger
  import opened BrokerFills
  import opened Admission
  import opened AdmissionSafety
  import opened ListingEffects

  datatype Request =
    | SubmitReq(intent: Intent, now: int)
    | SubmitLimitReq(intent: Intent, now: int, accountMatches: bool)
    | PreviewReq(intent: Intent, now: int, accountMatches: bool)
    | ScriptReq(id: string, script: Script)
    | LookupReq(id: string)
    | ListOpenReq
    | ListRecentReq(ids: seq<string>)
    | ListFillsReq(id: string)
    | CancelReq(id: string)

  lemma GateKeepsWellFormed(s: State, symbol: string, quantity: int, key: string)
    requires WellFormed(s)
    ensures WellFormed(ValidateConfirmedLong(s, symbol, quantity, key).state)
  {
    PollAllKeepsWellFormed(s, OpenIds(s.ids, s.entries));
  }

  lemma SubmitOrderKeepsWellFormed(s: State, intent: Intent, now: int)
    requires WellFormed(s)
    ensures WellFormed(SubmitOrder(s, intent, now).state)
  {
    GateKeepsWellFormed(s, intent.symbol, intent.quantity, intent.idempotencyKey);
    SubmitKeepsWellFormed(ValidateConfirmedLong(s, intent.symbol, intent.quantity, intent.idempotencyKey).state, intent);
    SubmitKeepsWellFormed(s, intent);
  }

  function Serve(s: State, r: Request): (t: State)
    requires WellFormed(s)
    ensures WellFormed(t)
  {
    match r
    case SubmitReq(intent, now) =>
      SubmitOrderKeepsWellFormed(s, intent, now); SubmitOrder(s, intent, now).state
    case SubmitLimitReq(intent, now, matches) =>
      SubmitOrderKeepsWellFormed(s, intent, now); SubmitLimitOrder(s, intent, now, matches).state
    case PreviewReq(intent, now, matches) =>
      GateKeepsWellFormed(s, intent.symbol, intent.quantity, intent.idempotencyKey);
      Preview(s, intent, now, matches).state
    case ScriptReq(id, script) => ScriptFill(s, id, script)
    case LookupReq(id) => PollKeepsWellFormed(s, id); Poll(s, id).state
    case ListOpenReq => PollAllKeepsWellFormed(s, OpenIds(s.ids, s.entries)); ListOpen(s).state
    case ListRecentReq(ids) => PollAllKeepsWellFormed(s, ids); PollAll(s, ids).state
    case ListFillsReq(id) => PollKeepsWellFormed(s, id); ListFills(s, id).state
    case CancelReq(id) => CancelKeepsWellFormed(s, id); Cancel(s, id).state
  }

  function ServeAll(s: State, rs: seq<Request>): (t: State)
    requires WellFormed(s)
    ensures WellFormed(t)
    decreases |rs|
  {
    if rs == [] then s else ServeAll(Serve(s, rs[0]), rs[1..])
  }

  // ----- safety -----

  /**
   * What a run may contain: scripts are monotone and never revive an inactive order, SELLs
   * are submitted while sales of their symbol are settled, and symbols are not empty.
   */
  ghost predicate Permitted(s: State, r: Request) {
    match r
    case SubmitReq(intent, _) =>
      intent.symbol != "" && (intent.side == Canonical(Sell) ==> Settled(s, intent.symbol))
    case SubmitLimitReq(intent, _, _) => intent.side == Canonical(Sell) ==> Settled(s, intent.symbol)
    case ScriptReq(id, script) =>
      && Monotone(s, id, script)
      && (id in s.entries ==> s.entries[id].order.status !in {Filled, Cancelled, Expired, Rejected, Errored})
    case _ => true
  }

  ghost predicate PermittedRun(s: State, rs: seq<Request>)
    requires WellFormed(s)
    decreases |rs|
  {
    rs != [] ==> Permitted(s, rs[0]) && PermittedRun(Serve(s, rs[0]), rs[1..])
  }

  lemma SubmitOrderKeepsGuarded(s: State, intent: Intent, now: int)
    requires Guarded(s) && intent.symbol != ""
    requires intent.side == Canonical(Sell) ==> Settled(s, intent.symbol)
    ensures Guarded(SubmitOrder(s, intent, now).state)
  {
    if Validate(intent, now).Ok? {
      if intent.side == Canonical(Sell) {
        GateKeepsGuarded(s, intent.symbol, intent.quantity, intent.idempotencyKey);
        if ValidateConfirmedLong(s, intent.symbol, intent.quantity, intent.idempotencyKey).outcome.Ok? {
          GatedSubmitKeepsGuarded(s, intent);
        }
      } else {
        assert Exposure(s.ids, s.entries, intent.symbol) as real <= Held(s.account, intent.symbol);
        SubmitKeepsGuarded(s, intent);
      }
    }
  }

  lemma ServeKeepsGuarded(s: State, r: Request)
    requires Guarded(s) && Permitted(s, r)
    ensures Guarded(Serve(s, r))
  {
    match r
    case SubmitReq(intent, now) => SubmitOrderKeepsGuarded(s, intent, now);
    case SubmitLimitReq(intent, now, _) =>
      if intent.symbol != "" {
        SubmitOrderKeepsGuarded(s, intent, now);
      }
    case PreviewReq(intent, _, _) =>
      GateKeepsGuarded(s, intent.symbol, intent.quantity, intent.idempotencyKey);
    case ScriptReq(id, script) =>
      if id in s.entries {
        ActiveExactly(s.entries[id].order.status);
      }
      ScriptKeepsGuarded(s, id, script);
    case LookupReq(id) => PollKeepsGuarded(s, id);
    case ListOpenReq => PollAllKeepsGuarded(s, OpenIds(s.ids, s.entries));
    case ListRecentReq(ids) => PollAllKeepsGuarded(s, ids);
    case ListFillsReq(id) => PollKeepsGuarded(s, id);
    case CancelReq(id) => CancelKeepsGuarded(s, id);
  }

  lemma {:induction false} RunKeepsGuarded(s: State, rs: seq<Request>)
    requires Guarded(s) && PermittedRun(s, rs)
    ensures Guarded(ServeAll(s, rs))
    decreases |rs|
  {
    if rs != [] {
      ServeKeepsGuarded(s, rs[0]);
      RunKeepsGuarded(Serve(s, rs[0]), rs[1..]);
    }
  }

  /**
   * Over every permitted run through the dispatcher: what SELL orders not filled, cancelled,
   * expired, rejected or in error have still to sell never exceeds what is held, whatever is
   * looked up next meets no refused position or fill, every order's fills are recorded
   * exactly once, and the account is exact.
   */
  lemma DispatcherRunsAreSafe(startingCash: real, rs: seq<Request>, symbol: string, ids: seq<string>)
    requires PermittedRun(Opened(startingCash), rs)
    ensures
      var s := ServeAll(Opened(startingCash), rs);
      && SalesOf(s.ids, s.entries, symbol) as real <= Held(s.account, symbol)
      && (forall id :: id in s.ids <==> id in s.entries)
      && AllSmooth(s, ids)
      && (forall id <- s.entries :: FilledBy(s.account.journal, id) == s.entries[id].order.filled)
      && Booked(s.account)
  {
    RunKeepsGuarded(Opened(startingCash), rs);
    var s := ServeAll(Opened(startingCash), rs);
    PollAllKeepsGuarded(s, ids);
    assert Exposure(s.ids, s.entries, symbol) as real <= Held(s.account, symbol);
    assert forall id <- s.entries :: Stored(s.entries[id], id);
    ExposureIsSales(s.ids, s.entries, symbol);
  }

  /** What a fresh admitted order is: just what was asked for, priced, unexpired and unfilled. */
  lemma AdmittedOrderIsAsAsked(s: State, intent: Intent, now: int)
    requires WellFormed(s) && intent.idempotencyKey !in s.entries && SubmitOrder(s, intent, now).outcome.Ok?
    ensures var order := SubmitOrder(s, intent, now).outcome.value;
            && order.clientOrderId == intent.idempotencyKey && order.intentId == intent.intentId
            && order.symbol == intent.symbol && intent.side == Canonical(order.side)
            && order.quantity == intent.quantity > 0 && order.filled == 0 && order.status == Accepted
            && order.limitPrice.Some? && order.limitPrice.value > 0.0 && order.bookId == intent.bookId
            && NormalizeOptionalDecimal(intent.limitPrice) == Ok(order.limitPrice)
            && now < intent.expiresAt && intent.recommendationId != "" && PositiveDecimal(intent.referencePrice).Ok?
            && intent.equity && intent.limitType
    ensures SubmitOrder(s, intent, now).state.entries[intent.idempotencyKey].order
         == SubmitOrder(s, intent, now).outcome.value
  {
    if intent.side == Canonical(Sell) {
      var listed := ListOpen(s);
      PollAllKeepsKeys(s, OpenIds(s.ids, s.entries));
    }
  }

  /** Purchases pass no gate: a valid one under a fresh key is always acknowledged, and nothing else changes. */
  lemma ValidPurchaseIsAdmitted(s: State, intent: Intent, now: int)
    requires WellFormed(s) && intent.idempotencyKey !in s.entries && Validate(intent, now).Ok?
    requires intent.side == Canonical(Buy)
    ensures var r := SubmitOrder(s, intent, now);
            && r.outcome.Ok? && r.state.ids == s.ids + [intent.idempotencyKey]
            && r.state.entries.Keys == s.entries.Keys + {intent.idempotencyKey}
            && r.state.account == s.account && r.state.scripts == s.scripts
            && (forall id <- s.entries :: r.state.entries[id] == s.entries[id])
  {}

  /**
   * The broker-neutral submission under a fresh key succeeds exactly when every field is
   * given and valid, the account is the right one and, for a sale, the gate admits it; when
   * a purchase does not, nothing changes.
   */
  lemma LimitOrderExactly(s: State, intent: Intent, now: int, accountMatches: bool)
    requires WellFormed(s) && intent.idempotencyKey !in s.entries
    ensures SubmitLimitOrder(s, intent, now, accountMatches).outcome.Ok? <==>
      && intent.symbol != "" && intent.intentId != "" && intent.recommendationId != "" && intent.idempotencyKey != ""
      && intent.equity && intent.limitType && intent.quantity > 0 && now < intent.expiresAt && accountMatches
      && intent.referencePrice.Number? && intent.referencePrice.value > 0.0
      && intent.limitPrice.Some? && intent.limitPrice.value.Number? && intent.limitPrice.value.value > 0.0
      && (|| intent.side == Canonical(Buy)
          || (intent.side == Canonical(Sell)
              && ValidateConfirmedLong(s, intent.symbol, intent.quantity, intent.idempotencyKey).outcome.Ok?))
    ensures intent.side != Canonical(Sell) && SubmitLimitOrder(s, intent, now, accountMatches).outcome.Raised? ==>
      SubmitLimitOrder(s, intent, now, accountMatches).state == s
  {
    ValidateExactly(intent, now);
    AcknowledgedExactly(intent);
    PollAllKeepsKeys(s, OpenIds(s.ids, s.entries));
  }

  /** A preview foretells the submission: for a fresh key it approves exactly what would be acknowledged, and refuses as it would. */
  lemma PreviewForetellsSubmission(s: State, intent: Intent, now: int, accountMatches: bool)
    requires WellFormed(s) && intent.idempotencyKey !in s.entries
    ensures Preview(s, intent, now, accountMatches).outcome.Ok?
       <==> SubmitLimitOrder(s, intent, now, accountMatches).outcome.Ok?
    ensures Preview(s, intent, now, accountMatches).outcome.Raised? ==>
      SubmitLimitOrder(s, intent, now, accountMatches)
      == Reply(Preview(s, intent, now, accountMatches).state, Raised(Preview(s, intent, now, accountMatches).outcome.error))
  {
    PollAllKeepsKeys(s, OpenIds(s.ids, s.entries));
  }

  lemma {:induction false} PollAllKeepsKeys(s: State, ids: seq<string>)
    requires WellFormed(s)
    ensures PollAll(s, ids).state.entries.Keys == s.entries.Keys
    decreases |ids|
  {
    if ids != [] {
      PollKeepsWellFormed(s, ids[0]);
      if Poll(s, ids[0]).outcome.Ok? {
        PollAllKeepsKeys(Poll(s, ids[0]).state, ids[1..]);
      }
    }
  }

  // ----- how exact the gate is -----

  lemma {:induction false} WholeShares(journal: seq<Fill>, symbol: string) returns (n: int)
    ensures NetShares(Trades(journal), symbol) == n as real
  {
    n := 0;
    if journal != [] {
      var init, fill := journal[..|journal| - 1], journal[|journal| - 1];
      n := WholeShares(init, symbol);
      assert Trades(journal)[..|journal| - 1] == Trades(init);
      if fill.symbol == symbol {
        n := if fill.side == Buy then n + fill.quantity else n - fill.quantity;
      }
    }
  }

  lemma HeldIsWhole(a: Account, symbol: string)
    requires Booked(a)
    ensures ParseExactInt(Held(a, symbol)).Ok? && Held(a, symbol) >= 0.0
  {
    assert a.Position(symbol) == HoldingOf(Trades(a.journal), symbol);
    HoldingIsNetShares(Trades(a.journal), symbol);
    var n := WholeShares(a.journal, symbol);
  }

  /**
   * The gate's verdict, told from the state before the call: a sale is admitted exactly when
   * the symbol is held and the quantity fits beside what the other open sales will have to
   * sell once the waiting scripts, all of them valid, have been applied.
   */
  lemma GateAdmitsExactly(s: State, symbol: string, quantity: int, key: string)
    requires Guarded(s)
    ensures
      var verdict := ValidateConfirmedLong(s, symbol, quantity, key).outcome;
      if s.account.Position(symbol).None? then verdict == Raised(ValidationFailed)
      else if !ScriptsAreValid(s) then verdict.Raised?
      else if SalesAsListed(s, s.ids, symbol, key) as real + quantity as real <= Held(s.account, symbol) then
        verdict == Ok(())
      else verdict == Raised(ValidationFailed)
  {
    HeldIsWhole(s.account, symbol);
    ListOpenEffect(s, symbol, key);
  }

  lemma {:induction false} SalesWithoutScripts(s: State, ids: seq<string>, symbol: string, exclude: string)
    requires s.scripts == map[] && exclude !in s.entries
    ensures SalesAsListed(s, ids, symbol, exclude) == SalesOf(ids, s.entries, symbol)
  {
    if ids != [] {
      SalesWithoutScripts(s, ids[1..], symbol, exclude);
    }
  }

  lemma {:induction false} SalesCover(s: State, ids: seq<string>, id: string, symbol: string)
    requires WellFormed(s) && id in ids && id in s.entries
    ensures 0 <= SaleShares(s.entries[id].order, symbol) <= SalesOf(ids, s.entries, symbol)
  {
    assert Stored(s.entries[id], id);
    if ids[0] == id {
      SalesAreNeverNegative(s, ids[1..], symbol);
    } else {
      SalesCover(s, ids[1..], id, symbol);
      if ids[0] in s.entries {
        assert Stored(s.entries[ids[0]], ids[0]);
      }
    }
  }

  lemma {:induction false} SalesAreNeverNegative(s: State, ids: seq<string>, symbol: string)
    requires WellFormed(s)
    ensures SalesOf(ids, s.entries, symbol) >= 0
  {
    if ids != [] {
      if ids[0] in s.entries {
        assert Stored(s.entries[ids[0]], ids[0]);
      }
      SalesAreNeverNegative(s, ids[1..], symbol);
    }
  }

  /** A SELL at work keeps its unfilled shares from every new sale, in each of the six statuses. */
  lemma OpenSaleIsReserved(s: State, id: string, quantity: int, key: string)
    requires Guarded(s) && s.scripts == map[] && key !in s.entries && id in s.entries
    requires s.entries[id].order.side == Sell
    requires s.entries[id].order.status in
      {PendingSubmission, SubmissionUnknownStatus, Submitted, Accepted, PartiallyFilled, CancelRequested}
    requires
      var o := s.entries[id].order;
      quantity as real > QuantityOf(s.account.Position(o.symbol)) - (o.quantity - o.filled) as real
    ensures ValidateConfirmedLong(s, s.entries[id].order.symbol, quantity, key).outcome == Raised(ValidationFailed)
  {
    var o := s.entries[id].order;
    GateAdmitsExactly(s, o.symbol, quantity, key);
    SalesWithoutScripts(s, s.ids, o.symbol, key);
    SalesCover(s, s.ids, id, o.symbol);
  }

  lemma {:induction false} NoSales(s: State, ids: seq<string>, symbol: string)
    requires forall id <- s.entries ::
      s.entries[id].order.symbol == symbol && s.entries[id].order.side == Sell ==>
        s.entries[id].order.status in {Filled, Cancelled, Expired, Rejected, Errored}
    ensures SalesOf(ids, s.entries, symbol) == 0
  {
    if ids != [] {
      NoSales(s, ids[1..], symbol);
    }
  }

  /** Sales that are filled, cancelled, expired, rejected or in error, and purchases, take nothing from the allowance. */
  lemma FinishedSalesReserveNothing(s: State, symbol: string, quantity: int, key: string)
    requires Guarded(s) && s.scripts == map[] && key !in s.entries && s.account.Position(symbol).Some?
    requires forall id <- s.entries ::
      s.entries[id].order.symbol == symbol && s.entries[id].order.side == Sell ==>
        s.entries[id].order.status in {Filled, Cancelled, Expired, Rejected, Errored}
    ensures ValidateConfirmedLong(s, symbol, quantity, key).outcome.Ok? <==>
      quantity as real <= QuantityOf(s.account.Position(symbol))
  {
    GateAdmitsExactly(s, symbol, quantity, key);
    SalesWithoutScripts(s, s.ids, symbol, key);
    NoSales(s, s.ids, symbol);
  }

  /**
   * The gate compares the position read before the listing with the sales left open after it.
   * So admission keeps every sale covered if and only if the listing would fail, or would
   * take no shares of the symbol away on balance, or leaves no allowance at all: all of it
   * told from the scripts that wait before the call.
   */
  lemma GateIsSafeExactlyWhenListingTakesNothing(s: State, symbol: string, key: string)
    requires Guarded(s) && key !in s.entries
    ensures
      var t := ListOpen(s).state;
      (forall quantity: int ::
         quantity > 0 && ValidateConfirmedLong(s, symbol, quantity, key).outcome.Ok?
         ==> SalesOf(t.ids, t.entries, symbol) as real + quantity as real <= Held(t.account, symbol))
      <==> || !ScriptsAreValid(s)
           || PendingOutflow(s, s.ids, symbol) <= 0
           || Held(s.account, symbol) <= SalesAsListed(s, s.ids, symbol, key) as real
  {
    HeldIsWhole(s.account, symbol);
    ListOpenEffect(s, symbol, key);
    forall quantity: int
      ensures ValidateConfirmedLong(s, symbol, quantity, key).outcome.Ok? <==>
        && s.account.Position(symbol).Some? && ScriptsAreValid(s)
        && SalesAsListed(s, s.ids, symbol, key) as real + quantity as real <= Held(s.account, symbol)
    {
      GateAdmitsExactly(s, symbol, quantity, key);
    }
    if ScriptsAreValid(s) {
      GateCountsExposure(s, symbol, key);
      var allowance := ParseExactInt(Held(s.account, symbol)).value - SalesAsListed(s, s.ids, symbol, key);
      assert allowance > 0 ==> ValidateConfirmedLong(s, symbol, allowance, key).outcome.Ok?;
    }
  }

  /** The caller's remedy: after a successful listing of the open orders any sell may be submitted. */
  lemma ListingFirstPermitsSale(s: State, intent: Intent, now: int)
    requires Guarded(s) && ListOpen(s).outcome.Ok? && intent.symbol != ""
    ensures PermittedRun(s, [ListOpenReq, SubmitReq(intent, now)])
    ensures Guarded(ServeAll(s, [ListOpenReq, SubmitReq(intent, now)]))
  {
    var rs := [ListOpenReq, SubmitReq(intent, now)];
    ListingSettles(s, intent.symbol);
    assert rs[1..] == [SubmitReq(intent, now)] && rs[1..][1..] == [];
    assert Serve(s, rs[0]) == ListOpen(s).state;
    RunKeepsGuarded(s, rs);
  }

  /** `submit_order` admits a purchase without a symbol, and filling it breaks the account. */
  lemma SubmitOrderAdmitsUnrecordable(s: State, intent: Intent, now: int, price: real)
    requires Guarded(s) && Validate(intent, now).Ok? && intent.idempotencyKey !in s.entries
    requires intent.side == Canonical(Buy) && intent.symbol == "" && price > 0.0
    ensures SubmitOrder(s, intent, now) == Submit(s, intent) && Submit(s, intent).outcome.Ok?
    ensures
      var fullFill := Script(Some(Filled), intent.quantity, Some(Number("", price)), Raw(""));
      !Booked(SubmittedAndFilled(s, intent, fullFill).account)
  {
    UnrecordableBreaksLedger(s, intent, price);
  }

  // ----- one unapplied sale misleads the gate by exactly its size -----

  lemma {:induction false} ListingWithoutScripts(s: State, ids: seq<string>)
    requires WellFormed(s)
    requires forall x <- ids :: x !in s.scripts
    ensures PollAll(s, ids).outcome.Ok? && PollAll(s, ids).state == s
    decreases |ids|
  {
    if ids != [] {
      assert ids[0] in ids && forall x <- ids[1..] :: x in ids;
      ListingWithoutScripts(s, ids[1..]);
    }
  }

  lemma {:induction false} ListingAppliesOnlyScript(s: State, ids: seq<string>, id: string)
    requires WellFormed(s) && Distinct(ids) && id in ids
    requires s.scripts.Keys == {id} && Poll(s, id).outcome.Ok?
    ensures PollAll(s, ids).outcome.Ok? && PollAll(s, ids).state == Poll(s, id).state
    decreases |ids|
  {
    assert ids[0] !in ids[1..];
    if ids[0] == id {
      PollKeepsWellFormed(s, id);
      ListingWithoutScripts(Poll(s, id).state, ids[1..]);
    } else {
      assert Poll(s, ids[0]).state == s;
      ListingAppliesOnlyScript(s, ids[1..], id);
    }
  }

  /** The shares a pending script is about to sell. */
  function PendingSale(s: State, id: string): int
    requires Reportable(s, id)
  {
    if s.entries[id].order.side == Sell then NextSnapshot(s, id).filled - s.entries[id].order.filled else 0
  }

  lemma ListingAppliesPendingSale(s: State, id: string)
    requires Guarded(s) && s.scripts.Keys == {id} && Reportable(s, id) && PendingSale(s, id) > 0
    ensures ListOpen(s).outcome.Ok? && ListOpen(s).state == Poll(s, id).state
  {
    assert Disciplined(s, id);
    OpenIdsFacts(s.ids, s.entries);
    PollKeepsGuarded(s, id);
    ListingAppliesOnlyScript(s, OpenIds(s.ids, s.entries), id);
  }

  lemma PendingSaleLeaves(s: State, id: string)
    requires Guarded(s) && Reportable(s, id)
    ensures Guarded(Poll(s, id).state)
    ensures s.entries[id].order.side == Sell ==>
              var symbol := s.entries[id].order.symbol;
              Held(Poll(s, id).state.account, symbol) == Held(s.account, symbol) - PendingSale(s, id) as real
  {
    PollKeepsGuarded(s, id);
    LookupIsCovered(s, id);
  }

  lemma GateAdmitsItsAllowance(s: State, symbol: string, quantity: int, key: string)
    requires WellFormed(s) && Listed(s) && Booked(s.account) && key !in s.entries
    requires s.account.Position(symbol).Some? && ListOpen(s).outcome.Ok?
    requires quantity as real
             <= Held(s.account, symbol) - Exposure(s.ids, ListOpen(s).state.entries, symbol) as real
    ensures ValidateConfirmedLong(s, symbol, quantity, key).outcome.Ok?
  {
    GateCountsExposure(s, symbol, key);
    HeldIsWhole(s.account, symbol);
  }

  /** Held shares that no open SELL commits. */
  function FreeShares(s: State, symbol: string): int {
    Held(s.account, symbol).Floor - Exposure(s.ids, s.entries, symbol)
  }

  lemma FreeSharesAreExact(s: State, symbol: string)
    requires Guarded(s)
    ensures FreeShares(s, symbol) >= 0
    ensures FreeShares(s, symbol) as real
         == Held(s.account, symbol) - Exposure(s.ids, s.entries, symbol) as real
  {
    HeldIsWhole(s.account, symbol);
    assert Exposure(s.ids, s.entries, symbol) as real <= Held(s.account, symbol);
  }

  lemma FreeAfterPendingSale(s: State, id: string, symbol: string)
    requires Guarded(s) && Reportable(s, id) && s.entries[id].order.side == Sell
    requires symbol == s.entries[id].order.symbol
    ensures WellFormed(Poll(s, id).state) && Poll(s, id).state.ids == s.ids
    ensures FreeShares(Poll(s, id).state, symbol) >= 0
    ensures (FreeShares(Poll(s, id).state, symbol) + PendingSale(s, id)) as real
         == Held(s.account, symbol) - Exposure(s.ids, Poll(s, id).state.entries, symbol) as real
  {
    PendingSaleLeaves(s, id);
    FreeSharesAreExact(Poll(s, id).state, symbol);
  }

  lemma SaleIsHeld(s: State, id: string, symbol: string)
    requires Guarded(s) && Reportable(s, id) && PendingSale(s, id) > 0
    requires symbol == s.entries[id].order.symbol
    ensures s.account.Position(symbol).Some?
  {
    FreeAfterPendingSale(s, id, symbol);
  }

  /**
   * Why SELLs must be validated while sales are settled: with one pending script, about to
   * sell `r` shares, the gate admits a new SELL that exceeds what is then free by exactly `r`.
   */
  lemma UnappliedSaleMisleadsGate(s: State, id: string, key: string)
    requires Guarded(s) && s.scripts.Keys == {id} && Reportable(s, id) && PendingSale(s, id) > 0
    requires key !in s.entries
    ensures WellFormed(ListOpen(s).state)
    ensures
      var symbol := s.entries[id].order.symbol;
      var free := FreeShares(ListOpen(s).state, symbol);
      free >= 0 && ValidateConfirmedLong(s, symbol, free + PendingSale(s, id), key).outcome.Ok?
  {
    var symbol := s.entries[id].order.symbol;
    ListingAppliesPendingSale(s, id);
    SaleIsHeld(s, id, symbol);
    FreeAfterPendingSale(s, id, symbol);
    GateAdmitsItsAllowance(s, symbol, FreeShares(Poll(s, id).state, symbol) + PendingSale(s, id), key);
  }
}

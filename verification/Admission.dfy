/**
 * The dispatcher's order gate: a SELL is admitted only against confirmed shares that no
 * other open SELL already claims.
 */
module Admission {
  import opened Prelude
  import opened AverageCost
  import opened BrokerModels
  import opened Broker
  import opened BrokerLedger
  import opened BrokerFills

  // ----- the gate -----

  /** Statuses in which an order still commits its unfilled shares. */
  predicate Active(status: Status) {
    match status
    case Filled => false
    case Cancelled => false
    case Expired => false
    case Rejected => false
    case Errored => false
    case _ => true
  }

  /** The six statuses in which an order is still at work, and the five in which it is done. */
  lemma ActiveExactly(status: Status)
    ensures Active(status) <==>
      status in {PendingSubmission, SubmissionUnknownStatus, Submitted, Accepted, PartiallyFilled, CancelRequested}
    ensures Active(status) <==> status !in {Filled, Cancelled, Expired, Rejected, Errored}
  {}

  /** Unfilled shares an order commits to selling `symbol`. */
  function Remaining(o: Order, symbol: string): (n: nat) {
    if o.symbol == symbol && o.side == Sell && Active(o.status) && o.quantity > o.filled
    then o.quantity - o.filled else 0
  }

  /** Shares committed by listed orders, leaving out the one being (re)submitted. */
  function Committed(listed: seq<Order>, symbol: string, exclude: string): nat {
    if listed == [] then 0
    else
      var o := listed[|listed| - 1];
      Committed(listed[..|listed| - 1], symbol, exclude)
      + if o.clientOrderId == exclude then 0 else Remaining(o, symbol)
  }

  /** The position is read first; listing the open orders then applies pending fills. */
  function ValidateConfirmedLong(s: State, symbol: string, quantity: int, exclude: string): Reply<()>
    requires WellFormed(s)
  {
    var position := s.account.Position(symbol);
    if position.None? then Reply(s, Raised(ValidationFailed))
    else
      var confirmed := ParseExactInt(position.value.quantity);
      if confirmed.Raised? then Reply(s, Raised(confirmed.error))
      else
        var listed := ListOpen(s);
        if listed.outcome.Raised? then Reply(listed.state, Raised(listed.outcome.error))
        else if confirmed.value - Committed(listed.outcome.value, symbol, exclude) < quantity then
          Reply(listed.state, Raised(ValidationFailed))
        else Reply(listed.state, Ok(()))
  }

  function PositiveDecimal(text: DecimalText): Attempt<()> {
    match text
    case Number(_, value) => if value > 0.0 then Ok(()) else Raised(ValidationFailed)
    case _ => Raised(MalformedPayload)
  }

  /** Re-validation of an intent, independent of what the caller already checked. */
  function Validate(intent: Intent, now: int): Attempt<()> {
    if intent.intentId == "" || intent.recommendationId == "" || intent.idempotencyKey == "" then
      Raised(ValidationFailed)
    else if !intent.equity || !intent.side.Canonical? || intent.quantity <= 0 || !intent.limitType then
      Raised(ValidationFailed)
    else
      var _ :- PositiveDecimal(intent.referencePrice);
      if intent.limitPrice.None? then Raised(ValidationFailed)
      else
        var _ :- PositiveDecimal(intent.limitPrice.value);
        if now < intent.expiresAt then Ok(()) else Raised(ValidationFailed)
  }

  /** The `submit_order` operation of the dispatcher. */
  function SubmitOrder(s: State, intent: Intent, now: int): Reply<Order>
    requires WellFormed(s)
  {
    var valid := Validate(intent, now);
    if valid.Raised? then Reply(s, Raised(valid.error))
    else if intent.side == Canonical(Sell) then
      var gate := ValidateConfirmedLong(s, intent.symbol, intent.quantity, intent.idempotencyKey);
      if gate.outcome.Raised? then Reply(gate.state, Raised(gate.outcome.error))
      else Submit(gate.state, intent)
    else Submit(s, intent)
  }

  /** The broker-neutral operations insist on fields that are there and not empty. */
  predicate IsExternalIntent(intent: Intent) {
    && intent.symbol != "" && intent.intentId != "" && intent.idempotencyKey != "" && intent.side != Unreadable("")
    && intent.limitPrice.Some? && !intent.limitPrice.value.Blank?
  }

  /** The broker-neutral submission, which also checks the account. */
  function SubmitLimitOrder(s: State, intent: Intent, now: int, accountMatches: bool): Reply<Order>
    requires WellFormed(s)
  {
    if !IsExternalIntent(intent) then Reply(s, Raised(MalformedPayload))
    else
      var valid := Validate(intent, now);
      if valid.Raised? then Reply(s, Raised(valid.error))
      else if !accountMatches then Reply(s, Raised(ValidationFailed))
      else SubmitOrder(s, intent, now)
  }

  /** A preview runs the same checks and the same gate, and submits nothing. */
  function Preview(s: State, intent: Intent, now: int, accountMatches: bool): Reply<()>
    requires WellFormed(s)
  {
    if !IsExternalIntent(intent) then Reply(s, Raised(MalformedPayload))
    else
      var valid := Validate(intent, now);
      if valid.Raised? then Reply(s, valid)
      else if !accountMatches then Reply(s, Raised(ValidationFailed))
      else if intent.side == Canonical(Sell) then
        ValidateConfirmedLong(s, intent.symbol, intent.quantity, intent.idempotencyKey)
      else Reply(s, Ok(()))
  }

  // ----- exposure -----

  function Exposure(ids: seq<string>, entries: map<string, Entry>, symbol: string): nat {
    if ids == [] then 0
    else
      (if ids[0] in entries then Remaining(entries[ids[0]].order, symbol) else 0)
      + Exposure(ids[1..], entries, symbol)
  }

  lemma {:induction false} ExposureUnchanged(ids: seq<string>, e: map<string, Entry>, f: map<string, Entry>, symbol: string)
    requires forall id <- ids :: (id in e <==> id in f)
    requires forall id <- ids :: id in e ==> Remaining(e[id].order, symbol) == Remaining(f[id].order, symbol)
    ensures Exposure(ids, e, symbol) == Exposure(ids, f, symbol)
  {
    if ids != [] {
      assert ids[0] in ids && forall id <- ids[1..] :: id in ids;
      ExposureUnchanged(ids[1..], e, f, symbol);
    }
  }

  /** Replacing one order moves the exposure by the difference of what the two commit. */
  lemma {:induction false} ExposureReplaced(ids: seq<string>, e: map<string, Entry>, id: string, entry: Entry, symbol: string)
    requires Distinct(ids) && id in ids && id in e
    ensures Exposure(ids, e[id := entry], symbol) + Remaining(e[id].order, symbol)
         == Exposure(ids, e, symbol) + Remaining(entry.order, symbol)
  {
    if ids[0] == id {
      assert id !in ids[1..];
      ExposureUnchanged(ids[1..], e, e[id := entry], symbol);
    } else {
      ExposureReplaced(ids[1..], e, id, entry, symbol);
    }
  }

  lemma {:induction false} ExposureCovers(ids: seq<string>, e: map<string, Entry>, id: string, symbol: string)
    requires id in ids && id in e
    ensures Remaining(e[id].order, symbol) <= Exposure(ids, e, symbol)
  {
    if ids[0] != id {
      ExposureCovers(ids[1..], e, id, symbol);
    }
  }

  lemma {:induction false} ExposureAppended(ids: seq<string>, e: map<string, Entry>, id: string, symbol: string)
    ensures Exposure(ids + [id], e, symbol) ==
            Exposure(ids, e, symbol) + if id in e then Remaining(e[id].order, symbol) else 0
  {
    if ids == [] {
      assert ids + [id] == [id];
    } else {
      assert (ids + [id])[1..] == ids[1..] + [id];
      ExposureAppended(ids[1..], e, id, symbol);
    }
  }

  /** Shares of a symbol that a SELL not filled, cancelled, expired, rejected or in error has still to sell. */
  function SaleShares(o: Order, symbol: string): int {
    if o.symbol == symbol && o.side == Sell && o.status !in {Filled, Cancelled, Expired, Rejected, Errored}
    then o.quantity - o.filled else 0
  }

  lemma RemainingIsSaleShares(o: Order, symbol: string)
    requires CheckedOrder(o).Ok?
    ensures Remaining(o, symbol) == SaleShares(o, symbol)
  {
    ActiveExactly(o.status);
  }

  /** What open sales of a symbol have still to sell, over all stored orders. */
  function SalesOf(ids: seq<string>, entries: map<string, Entry>, symbol: string): int {
    if ids == [] then 0
    else
      (if ids[0] in entries then SaleShares(entries[ids[0]].order, symbol) else 0) + SalesOf(ids[1..], entries, symbol)
  }

  lemma {:induction false} ExposureIsSales(ids: seq<string>, entries: map<string, Entry>, symbol: string)
    requires forall id <- entries :: CheckedOrder(entries[id].order).Ok?
    ensures Exposure(ids, entries, symbol) == SalesOf(ids, entries, symbol)
  {
    if ids != [] {
      if ids[0] in entries {
        RemainingIsSaleShares(entries[ids[0]].order, symbol);
      }
      ExposureIsSales(ids[1..], entries, symbol);
    }
  }

  // ----- what validation asks for -----

  ghost predicate IsPositive(text: DecimalText) {
    text.Number? && text.value > 0.0
  }

  /** The conditions an intent must meet, and the error for those that can be told apart. */
  lemma ValidateExactly(intent: Intent, now: int)
    ensures Validate(intent, now).Ok? <==>
      && intent.intentId != "" && intent.recommendationId != "" && intent.idempotencyKey != ""
      && intent.equity && intent.limitType && intent.side.Canonical? && intent.quantity > 0
      && IsPositive(intent.referencePrice) && intent.limitPrice.Some? && IsPositive(intent.limitPrice.value)
      && now < intent.expiresAt
    ensures Validate(intent, now).Raised? ==> Validate(intent, now).error in {ValidationFailed, MalformedPayload}
    ensures Validate(intent, now) == Raised(MalformedPayload) ==>
      !intent.referencePrice.Number? || (intent.limitPrice.Some? && !intent.limitPrice.value.Number?)
  {}
}

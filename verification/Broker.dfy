/**
 * The state of the deterministic paper broker and what each of its operations does to it.
 * Operations that raise still return the state they leave behind.
 */
module Broker {
  import opened Prelude
  import opened AverageCost
  import opened BrokerModels

  /** What makes two submissions under one key the same order. */
  datatype Fingerprint = Fingerprint(
    symbol: string, side: SideText, quantity: int, limitType: bool, limitPrice: Option<DecimalText>)

  /**
   * Money, shares and fills. `journal` holds every recorded fill in the order it was booked;
   * the gateway itself keeps the same fills per order, in `fills`.
   */
  datatype Account = Account(
    startingCash: real,
    cash: Option<real>,
    positions: map<string, Holding>,
    fills: map<string, seq<Fill>>,
    journal: seq<Fill>)
  {
    function CurrentCash(): real {
      if cash.Some? then cash.value else startingCash
    }

    function Position(symbol: string): Option<Holding> {
      if symbol in positions then Some(positions[symbol]) else None
    }

    function FillsOf(id: string): seq<Fill> {
      if id in fills then fills[id] else []
    }

    predicate Positive() {
      forall x <- positions :: positions[x].quantity > 0.0
    }
  }

  /** What is kept of one order: its snapshot, and the side and fingerprint as submitted. */
  datatype Entry = Entry(order: Order, side: SideText, fingerprint: Fingerprint)

  /** `ids` lists the orders in insertion order. */
  datatype State = State(
    ids: seq<string>,
    entries: map<string, Entry>,
    scripts: map<string, Script>,
    submitCalls: seq<string>,
    account: Account)
  {
    /** The state with one order's snapshot replaced. */
    function Storing(id: string, order: Order): State
      requires id in entries
    {
      this.(entries := entries[id := entries[id].(order := order)])
    }
  }

  /** The state an operation leaves and what it returns or raises. */
  datatype Reply<+T> = Reply(state: State, outcome: Attempt<T>)

  function Opened(startingCash: real): State {
    State([], map[], map[], [], Account(startingCash, None, map[], map[], []))
  }

  function FingerprintOf(intent: Intent): Fingerprint {
    Fingerprint(intent.symbol, intent.side, intent.quantity, intent.limitType, intent.limitPrice)
  }

  // ----- submit, script, cancel -----

  function Submit(s: State, intent: Intent): Reply<Order> {
    var key := intent.idempotencyKey;
    var called := s.(submitCalls := s.submitCalls + [key]);
    if key in s.entries then
      Reply(called, if s.entries[key].fingerprint != FingerprintOf(intent) then Raised(IdempotencyConflict)
                    else Ok(s.entries[key].order))
    else
      var acknowledged := Acknowledged(intent);
      if acknowledged.Raised? then Reply(called, acknowledged)
      else
        Reply(called.(ids := s.ids + [key],
                      entries := s.entries[key := Entry(acknowledged.value, intent.side, FingerprintOf(intent))]),
              acknowledged)
  }

  function ScriptFill(s: State, id: string, script: Script): State {
    s.(scripts := s.scripts[id := script])
  }

  predicate Closed(status: Status) {
    status == Filled || status == Cancelled || status == Rejected || status == Errored
  }

  function Cancel(s: State, id: string): Reply<Order> {
    if id !in s.entries then Reply(s, Raised(UnknownOrder))
    else if Closed(s.entries[id].order.status) then Reply(s, Ok(s.entries[id].order))
    else
      var cancelled := CheckedOrder(s.entries[id].order.(status := Cancelled, rawStatus := Canceled));
      if cancelled.Raised? then Reply(s, cancelled)
      else Reply(s.Storing(id, cancelled.value).(scripts := s.scripts - {id}), cancelled)
  }

  // ----- applying a fill -----

  /** The account an operation leaves and the error it raises, if any. */
  datatype Posting = Posting(account: Account, error: Option<ErrorCode>)

  /** Stores a position; its construction rejects a non-positive price and an empty symbol. */
  function PutPosition(a: Account, symbol: string, h: Holding): (p: Posting)
    requires a.Positive() && h.quantity > 0.0
    ensures p.account.Positive()
  {
    if h.average <= 0.0 then Posting(a, Some(MalformedPayload))
    else if symbol == "" then Posting(a, Some(ValidationFailed))
    else Posting(a.(positions := a.positions[symbol := h]), None)
  }

  /** Only a side spelled exactly "SELL" sells; any other accepted spelling buys. */
  function ApplyPosition(a: Account, symbol: string, side: SideText, quantity: nat, price: real): (p: Posting)
    requires quantity > 0 && a.Positive()
    ensures p.account.Positive()
    ensures p.account == a.(cash := p.account.cash, positions := p.account.positions)
  {
    var held := a.Position(symbol);
    var value := price * quantity as real;
    if side == Canonical(Sell) then
      if held.None? || held.value.quantity < quantity as real then
        Posting(a.(cash := Some(a.CurrentCash())), Some(ValidationFailed))
      else
        var paid := a.(cash := Some(a.CurrentCash() + value));
        match Sold(held.value, quantity as real)
        case None => Posting(paid.(positions := a.positions - {symbol}), None)
        case Some(rest) => PutPosition(paid, symbol, rest)
    else
      PutPosition(a.(cash := Some(a.CurrentCash() - value)), symbol, Bought(held, quantity as real, price))
  }

  /** The record of a fill; its construction rejects an empty symbol and an unreadable side. */
  function RecordOf(order: Order, side: SideText, quantity: nat, price: real): Attempt<Fill>
    requires order.filled >= 0
  {
    var normalized :- NormalizeSide(side);
    if price <= 0.0 then Raised(MalformedPayload)
    else if order.symbol == "" then Raised(ValidationFailed)
    else
      Ok(Fill(FillKey(order.clientOrderId, order.filled), order.clientOrderId, order.bookId, order.symbol,
              normalized, quantity, price))
  }

  function Append(a: Account, fill: Fill): Account {
    a.(fills := a.fills[fill.clientOrderId := a.FillsOf(fill.clientOrderId) + [fill]],
       journal := a.journal + [fill])
  }

  /** Moves the position and then records the fill; either may raise. */
  function Book(a: Account, order: Order, side: SideText, delta: nat): (p: Posting)
    requires a.Positive() && delta > 0 && order.filled > 0 && order.averagePrice.Some?
    ensures p.account.Positive()
    ensures p.account.startingCash == a.startingCash
  {
    var price := order.averagePrice.value;
    var moved := ApplyPosition(a, order.symbol, side, delta, price);
    if moved.error.Some? then moved
    else
      match RecordOf(order, side, delta, price)
      case Raised(code) => Posting(moved.account, Some(code))
      case Ok(fill) => Posting(Append(moved.account, fill), None)
  }

  /** Every stored order and position is one the gateway could have stored. */
  ghost predicate WellFormed(s: State) {
    (forall id <- s.entries :: Stored(s.entries[id], id)) && s.account.Positive()
  }

  ghost predicate Stored(e: Entry, id: string) {
    && e.order.clientOrderId == id
    && CheckedOrder(e.order).Ok?
    && NormalizeSide(e.side) == Ok(e.order.side)
  }

  // ----- lookups, which apply scripted fills -----

  /** The order has a script, and the snapshot it leads to is a valid one. */
  predicate Reportable(s: State, id: string) {
    id in s.entries && id in s.scripts && Reported(s.entries[id].order, s.scripts[id]).Ok?
  }

  function NextSnapshot(s: State, id: string): (o: Order)
    requires Reportable(s, id)
    ensures CheckedOrder(o).Ok? && o.filled == s.scripts[id].filled
    ensures o.clientOrderId == s.entries[id].order.clientOrderId && o.quantity == s.entries[id].order.quantity
    ensures o.symbol == s.entries[id].order.symbol && o.side == s.entries[id].order.side
  {
    Reported(s.entries[id].order, s.scripts[id]).value
  }

  /** What a lookup does to the account once the order's new snapshot is stored. */
  function Booking(s: State, id: string): (p: Posting)
    requires WellFormed(s) && Reportable(s, id)
    ensures p.account.Positive() && p.account.startingCash == s.account.startingCash
  {
    var delta := s.scripts[id].filled - s.entries[id].order.filled;
    assert Stored(s.entries[id], id);
    if delta > 0 then Book(s.account, NextSnapshot(s, id), s.entries[id].side, delta)
    else Posting(s.account, None)
  }

  /** The new snapshot is stored before the fill it reports is applied, which may raise. */
  function Poll(s: State, id: string): (r: Reply<Option<Order>>)
    requires WellFormed(s)
  {
    if id !in s.entries then Reply(s, Ok(None))
    else if id !in s.scripts then Reply(s, Ok(Some(s.entries[id].order)))
    else if Reported(s.entries[id].order, s.scripts[id]).Raised? then
      Reply(s, Raised(Reported(s.entries[id].order, s.scripts[id]).error))
    else
      var booked := Booking(s, id);
      Reply(s.Storing(id, NextSnapshot(s, id)).(account := booked.account),
            if booked.error.Some? then Raised(booked.error.value) else Ok(Some(NextSnapshot(s, id))))
  }

  lemma PollKeepsWellFormed(s: State, id: string)
    requires WellFormed(s)
    ensures WellFormed(Poll(s, id).state)
    ensures Poll(s, id).state.account.startingCash == s.account.startingCash
  {
    if id in s.entries {
      assert Stored(s.entries[id], id);
    }
  }

  /** Lookups in turn; the first one that raises ends the listing but not what was done. */
  function PollAll(s: State, ids: seq<string>): Reply<seq<Order>>
    requires WellFormed(s)
    decreases |ids|
  {
    if ids == [] then Reply(s, Ok([]))
    else
      PollKeepsWellFormed(s, ids[0]);
      var first := Poll(s, ids[0]);
      match first.outcome
      case Raised(code) => Reply(first.state, Raised(code))
      case Ok(found) =>
        var rest := PollAll(first.state, ids[1..]);
        if rest.outcome.Raised? then rest
        else Reply(rest.state, Ok((if found.Some? then [found.value] else []) + rest.outcome.value))
  }

  /** Identifiers of the orders whose stored status is not closed, in insertion order. */
  function OpenIds(ids: seq<string>, entries: map<string, Entry>): seq<string> {
    if ids == [] then []
    else
      var rest := OpenIds(ids[1..], entries);
      if ids[0] in entries && !Closed(entries[ids[0]].order.status) then [ids[0]] + rest else rest
  }

  function ListOpen(s: State): Reply<seq<Order>>
    requires WellFormed(s)
  {
    PollAll(s, OpenIds(s.ids, s.entries))
  }

  function ListFills(s: State, id: string): Reply<seq<Fill>>
    requires WellFormed(s)
  {
    var looked := Poll(s, id);
    if looked.outcome.Raised? then Reply(looked.state, Raised(looked.outcome.error))
    else Reply(looked.state, Ok(looked.state.account.FillsOf(id)))
  }

  lemma {:induction false} PollAllKeepsWellFormed(s: State, ids: seq<string>)
    requires WellFormed(s)
    ensures WellFormed(PollAll(s, ids).state)
    decreases |ids|
  {
    if ids != [] {
      PollKeepsWellFormed(s, ids[0]);
      if Poll(s, ids[0]).outcome.Ok? {
        PollAllKeepsWellFormed(Poll(s, ids[0]).state, ids[1..]);
      }
    }
  }

  lemma SubmitKeepsWellFormed(s: State, intent: Intent)
    requires WellFormed(s)
    ensures WellFormed(Submit(s, intent).state)
  {}

  lemma CancelKeepsWellFormed(s: State, id: string)
    requires WellFormed(s)
    ensures WellFormed(Cancel(s, id).state)
  {
    if id in s.entries {
      assert Stored(s.entries[id], id);
    }
  }

  // ----- runs -----

  /** `PollMany` stands for any listing, such as the most recent orders, in any order. */
  datatype Op =
    | SubmitOp(intent: Intent)
    | ScriptOp(id: string, script: Script)
    | PollOp(id: string)
    | PollMany(ids: seq<string>)
    | ListOpenOp
    | ListFillsOp(id: string)
    | CancelOp(id: string)

  function Step(s: State, op: Op): (t: State)
    requires WellFormed(s)
    ensures WellFormed(t)
  {
    match op
    case SubmitOp(intent) => SubmitKeepsWellFormed(s, intent); Submit(s, intent).state
    case ScriptOp(id, script) => ScriptFill(s, id, script)
    case PollOp(id) => PollKeepsWellFormed(s, id); Poll(s, id).state
    case PollMany(ids) => PollAllKeepsWellFormed(s, ids); PollAll(s, ids).state
    case ListOpenOp => PollAllKeepsWellFormed(s, OpenIds(s.ids, s.entries)); ListOpen(s).state
    case ListFillsOp(id) => PollKeepsWellFormed(s, id); ListFills(s, id).state
    case CancelOp(id) => CancelKeepsWellFormed(s, id); Cancel(s, id).state
  }

  /** The state after a run, whatever its operations returned or raised. */
  function Run(s: State, ops: seq<Op>): (t: State)
    requires WellFormed(s)
    ensures WellFormed(t)
    decreases |ops|
  {
    if ops == [] then s else Run(Step(s, ops[0]), ops[1..])
  }

  /** Looking an order up again under an unchanged script changes nothing, even after a raise. */
  lemma PollIsIdempotent(s: State, id: string)
    requires WellFormed(s)
    ensures WellFormed(Poll(s, id).state)
    ensures Poll(Poll(s, id).state, id).state == Poll(s, id).state
  {
    PollKeepsWellFormed(s, id);
    if Reportable(s, id) {
      var updated, t := NextSnapshot(s, id), Poll(s, id).state;
      assert Reported(updated, s.scripts[id]) == Ok(updated);
      assert Booking(t, id) == Posting(t.account, None);
      assert t.Storing(id, updated).entries == t.entries;
    }
  }

  /**
   * A key names one order for good. Submitting under it again returns that order exactly when
   * symbol, side, quantity, order type and limit price are the same, and conflicts otherwise;
   * either way only the call is noted.
   */
  lemma ResubmissionReturnsTheOrder(s: State, intent: Intent, again: Intent)
    requires Submit(s, intent).outcome.Ok? && again.idempotencyKey == intent.idempotencyKey
    ensures var first := Submit(s, intent);
            var second := Submit(first.state, again);
            && second.outcome ==
               (if again.symbol == intent.symbol && again.side == intent.side && again.quantity == intent.quantity
                   && again.limitType == intent.limitType && again.limitPrice == intent.limitPrice
                then first.outcome else Raised(IdempotencyConflict))
            && second.state == first.state.(submitCalls := first.state.submitCalls + [again.idempotencyKey])
  {}

  /** A first submission adds the acknowledged order last, or nothing; it always notes the call. */
  lemma FirstSubmission(s: State, intent: Intent)
    requires intent.idempotencyKey !in s.entries
    ensures var r, key := Submit(s, intent), intent.idempotencyKey;
            && r.outcome == Acknowledged(intent)
            && r.state.submitCalls == s.submitCalls + [key]
            && r.state.account == s.account && r.state.scripts == s.scripts
            && r.state.ids == (if r.outcome.Ok? then s.ids + [key] else s.ids)
            && r.state.entries.Keys == (if r.outcome.Ok? then s.entries.Keys + {key} else s.entries.Keys)
            && (r.outcome.Ok? ==>
                  r.state.entries[key].order == r.outcome.value && r.state.entries[key].side == intent.side)
            && (forall id <- s.entries :: r.state.entries[id] == s.entries[id])
  {}

  /** The four statuses after which an order is neither listed as open nor cancelled. */
  lemma ClosedExactly(status: Status)
    ensures Closed(status) <==> status in {Filled, Cancelled, Rejected, Errored}
  {}

  /** A cancellation that takes effect is final until the order is scripted anew: looking the order up books nothing. */
  lemma CancelledStaysCancelled(s: State, id: string)
    requires WellFormed(s) && id in s.entries
    requires s.entries[id].order.status !in {Filled, Cancelled, Rejected, Errored}
    ensures WellFormed(Cancel(s, id).state) && Cancel(s, id).outcome.Ok?
    ensures var t := Cancel(s, id).state;
            && Cancel(s, id).outcome.value == t.entries[id].order
            && t.entries[id].order == s.entries[id].order.(status := Cancelled, rawStatus := Canceled)
            && t == s.(entries := t.entries, scripts := s.scripts - {id})
            && t.entries == s.entries[id := s.entries[id].(order := t.entries[id].order)]
            && Poll(t, id) == Reply(t, Ok(Some(t.entries[id].order)))
            && Cancel(t, id) == Reply(t, Ok(t.entries[id].order))
  {
    CancelKeepsWellFormed(s, id);
    assert Stored(s.entries[id], id);
  }

  /** Cancelling an order that is filled, cancelled, rejected or in error returns it and changes nothing; an unknown one raises. */
  lemma FinishedOrdersStay(s: State, id: string)
    ensures id in s.entries && s.entries[id].order.status in {Filled, Cancelled, Rejected, Errored} ==>
      Cancel(s, id) == Reply(s, Ok(s.entries[id].order))
    ensures id !in s.entries ==> Cancel(s, id) == Reply(s, Raised(UnknownOrder))
  {}

  /** What a lookup answers: nothing for an unknown order, the stored order, or the error that ended it. */
  lemma LookupAnswers(s: State, id: string)
    requires WellFormed(s)
    ensures id !in s.entries ==> Poll(s, id) == Reply(s, Ok(None))
    ensures id in s.entries && id !in s.scripts ==> Poll(s, id) == Reply(s, Ok(Some(s.entries[id].order)))
    ensures id in s.entries && id in s.scripts && Reported(s.entries[id].order, s.scripts[id]).Raised? ==>
      Poll(s, id) == Reply(s, Raised(Reported(s.entries[id].order, s.scripts[id]).error))
    ensures Reportable(s, id) ==>
      var t := Poll(s, id).state;
      && t.entries == s.entries[id := s.entries[id].(order := NextSnapshot(s, id))]
      && t.ids == s.ids && t.scripts == s.scripts && t.submitCalls == s.submitCalls
      && (Poll(s, id).outcome.Ok? ==> Poll(s, id).outcome.value == Some(NextSnapshot(s, id)))
  {}
}

/**
 * Conservation in the deterministic broker: cash and positions are exactly what the
 * recorded fills account for, in every reachable state, even after lookups that raise.
 */
module BrokerLedger {
  import opened Prelude
  import opened AverageCost
  import opened BrokerModels
  import opened Broker

  // ----- recorded fills as a trade stream -----

  function Trades(journal: seq<Fill>): seq<Trade> {
    seq(|journal|, i requires 0 <= i < |journal| => journal[i].AsTrade())
  }

  function OfOrder(journal: seq<Fill>, id: string): seq<Fill> {
    if journal == [] then []
    else
      var fill := journal[|journal| - 1];
      OfOrder(journal[..|journal| - 1], id) + if fill.clientOrderId == id then [fill] else []
  }

  lemma JournalExtended(journal: seq<Fill>, fill: Fill)
    ensures Trades(journal + [fill]) == Trades(journal) + [fill.AsTrade()]
    ensures forall id ::
              OfOrder(journal + [fill], id) ==
              OfOrder(journal, id) + if fill.clientOrderId == id then [fill] else []
  {
    var all := journal + [fill];
    assert all[..|journal|] == journal;
  }

  // ----- the invariant -----

  /**
   * A submission the ledger can follow: a sale is spelled "SELL", and a purchase names a
   * symbol. A respelled "sell" would be applied as a purchase and recorded as a sale, and a
   * purchase without a symbol would spend cash before its position is refused.
   */
  predicate Recordable(side: SideText, symbol: string) {
    side == Canonical(Sell) || (symbol != "" && !(side.Respelled? && side.side == Sell))
  }

  ghost predicate AllRecordable(s: State) {
    forall id <- s.entries :: Recordable(s.entries[id].side, s.entries[id].order.symbol)
  }

  /** Cash, positions and per-order fill lists are exactly those of the recorded fills. */
  ghost predicate Booked(a: Account) {
    && a.Positive()
    && AllProper(Trades(a.journal)) && NeverOversells(Trades(a.journal))
    && a.CurrentCash() == a.startingCash + CashFlow(Trades(a.journal))
    && (forall symbol :: a.Position(symbol) == HoldingOf(Trades(a.journal), symbol))
    && "" !in a.positions
    && (forall id :: a.FillsOf(id) == OfOrder(a.journal, id))
  }

  // ----- one fill -----

  /** `b` is `a` with one trade carried out on its cash and positions. */
  ghost predicate Moved(a: Account, b: Account, trade: Trade)
    requires Proper(trade) && a.Positive()
  {
    && b == a.(cash := b.cash, positions := b.positions)
    && b.CurrentCash() == a.CurrentCash() + CashMove(trade)
    && (forall x ::
          b.Position(x) == if x == trade.symbol then Traded(a.Position(x), trade) else a.Position(x))
  }

  lemma SaleMoves(a: Account, symbol: string, quantity: nat, price: real)
    requires quantity > 0 && price > 0.0 && a.Positive()
    requires symbol in a.positions && a.positions[symbol].average > 0.0 && symbol != ""
    requires !Oversells(a.Position(symbol), Trade(symbol, Sell, quantity as real, price))
    ensures ApplyPosition(a, symbol, Canonical(Sell), quantity, price).error.None?
    ensures Moved(a, ApplyPosition(a, symbol, Canonical(Sell), quantity, price).account,
                  Trade(symbol, Sell, quantity as real, price))
  {}

  lemma PurchaseMoves(a: Account, symbol: string, side: SideText, quantity: nat, price: real)
    requires quantity > 0 && price > 0.0 && symbol != "" && a.Positive()
    requires NormalizeSide(side) == Ok(Buy)
    requires forall x <- a.positions :: a.positions[x].average > 0.0
    ensures ApplyPosition(a, symbol, side, quantity, price).error.None?
    ensures Moved(a, ApplyPosition(a, symbol, side, quantity, price).account,
                  Trade(symbol, Buy, quantity as real, price))
  {
    BoughtAverageIsPositive(a.Position(symbol), quantity as real, price);
  }

  /**
   * Opening a position without a price or a symbol is refused only after its cash is spent;
   * what was held stays.
   */
  lemma RefusedPurchaseSpendsCash(a: Account, symbol: string, side: SideText, quantity: nat, price: real)
    requires quantity > 0 && a.Positive() && side != Canonical(Sell) && symbol !in a.positions
    ensures
      var p := ApplyPosition(a, symbol, side, quantity, price);
      && (p.error == Some(MalformedPayload) <==> price <= 0.0)
      && (p.error == Some(ValidationFailed) <==> price > 0.0 && symbol == "")
      && (p.error.None? <==> price > 0.0 && symbol != "")
      && (p.error.Some? ==> p.account == a.(cash := Some(a.CurrentCash() - price * quantity as real)))
  {}

  /** Recording a fill that position and cash already reflect restores the invariant. */
  lemma RecordedFillBooked(a: Account, b: Account, fill: Fill)
    requires Booked(a) && b.Positive()
    requires Proper(fill.AsTrade()) && fill.symbol != ""
    requires !Oversells(a.Position(fill.symbol), fill.AsTrade())
    requires Moved(a, b, fill.AsTrade())
    ensures Booked(Append(b, fill))
  {
    var trade, after := fill.AsTrade(), Append(b, fill);
    JournalExtended(a.journal, fill);
    StreamExtended(Trades(a.journal), trade);
    assert b.Position("") == a.Position("");
    forall x
      ensures after.Position(x) == HoldingOf(Trades(after.journal), x)
    {
      assert after.Position(x) == b.Position(x);
      assert a.Position(x) == HoldingOf(Trades(a.journal), x);
    }
    AppendedPerOrder(a, b, fill);
  }

  lemma AppendedPerOrder(a: Account, b: Account, fill: Fill)
    requires forall id :: a.FillsOf(id) == OfOrder(a.journal, id)
    requires b.fills == a.fills && b.journal == a.journal
    ensures forall id :: Append(b, fill).FillsOf(id) == OfOrder(Append(b, fill).journal, id)
  {
    JournalExtended(a.journal, fill);
    forall x
      ensures Append(b, fill).FillsOf(x) == OfOrder(Append(b, fill).journal, x)
    {
      assert a.FillsOf(x) == OfOrder(a.journal, x);
    }
  }

  lemma AveragesArePositive(a: Account)
    requires Booked(a)
    ensures forall x <- a.positions :: a.positions[x].average > 0.0
  {
    forall x | x in a.positions
      ensures a.positions[x].average > 0.0
    {
      assert a.Position(x) == HoldingOf(Trades(a.journal), x);
      AverageIsPositive(Trades(a.journal), x);
    }
  }

  /** The trade a lookup is about to book. */
  function Due(order: Order, delta: nat): Trade
    requires order.averagePrice.Some?
  {
    Trade(order.symbol, order.side, delta as real, order.averagePrice.value)
  }

  /** A refused sale changes nothing but turns the starting cash into an explicit balance. */
  lemma RefusalKeepsLedger(a: Account)
    requires Booked(a)
    ensures Booked(a.(cash := Some(a.CurrentCash())))
  {
    var b := a.(cash := Some(a.CurrentCash()));
    forall x
      ensures b.Position(x) == HoldingOf(Trades(b.journal), x)
    {
      assert a.Position(x) == HoldingOf(Trades(a.journal), x);
    }
    forall x
      ensures b.FillsOf(x) == OfOrder(b.journal, x)
    {
      assert a.FillsOf(x) == OfOrder(a.journal, x);
    }
  }

  /**
   * Booking a fill keeps the account exact. It raises exactly when the position does not
   * cover the sale; otherwise it records one fill, for the trade that was due.
   */
  lemma BookKeepsLedger(a: Account, order: Order, side: SideText, delta: nat)
    requires Booked(a) && delta > 0
    requires CheckedOrder(order).Ok? && order.filled > 0 && NormalizeSide(side) == Ok(order.side)
    requires Recordable(side, order.symbol)
    ensures Booked(Book(a, order, side, delta).account)
    ensures
      var e := Book(a, order, side, delta);
      if Oversells(a.Position(order.symbol), Due(order, delta)) then
        e == Posting(a.(cash := Some(a.CurrentCash())), Some(ValidationFailed))
      else
        && e.error.None? && RecordOf(order, side, delta, order.averagePrice.value).Ok?
        && e.account.journal == a.journal + [RecordOf(order, side, delta, order.averagePrice.value).value]
        && e.account.CurrentCash() == a.CurrentCash() + CashMove(Due(order, delta))
        && (forall x ::
              e.account.Position(x) ==
              if x == order.symbol then Traded(a.Position(x), Due(order, delta)) else a.Position(x))
  {
    var t, price := Due(order, delta), order.averagePrice.value;
    if Oversells(a.Position(order.symbol), t) {
      RefusalKeepsLedger(a);
    } else {
      AveragesArePositive(a);
      if order.side == Sell {
        SaleMoves(a, order.symbol, delta, price);
      } else {
        PurchaseMoves(a, order.symbol, side, delta, price);
      }
      var moved := ApplyPosition(a, order.symbol, side, delta, price);
      RecordedFillBooked(a, moved.account, RecordOf(order, side, delta, price).value);
    }
  }

  /** The fill records the order's own fields, the shares booked and their price. */
  ghost predicate IsRecordOf(fill: Fill, order: Order, delta: nat, price: real) {
    && order.filled >= 0 && fill.fillId == FillKey(order.clientOrderId, order.filled)
    && fill.clientOrderId == order.clientOrderId
    && fill.bookId == order.bookId && fill.symbol == order.symbol && fill.side == order.side
    && fill.quantity == delta && fill.price == price
  }

  lemma RecordIs(order: Order, side: SideText, delta: nat, price: real)
    requires order.filled >= 0 && NormalizeSide(side) == Ok(order.side) && RecordOf(order, side, delta, price).Ok?
    ensures IsRecordOf(RecordOf(order, side, delta, price).value, order, delta, price)
  {}

  lemma OversellsExactly(a: Account, order: Order, delta: nat)
    requires a.Positive() && delta > 0 && order.averagePrice.Some? && order.averagePrice.value > 0.0
    ensures Oversells(a.Position(order.symbol), Due(order, delta)) <==>
            && order.side == Sell
            && !(order.symbol in a.positions && a.positions[order.symbol].quantity >= delta as real)
  {
    TradeMeans(a.Position(order.symbol), Due(order, delta));
  }

  /**
   * Booking a fill is refused exactly when it sells more than is held, and then moves nothing;
   * otherwise one record of the fill is added.
   */
  lemma BookedExactly(a: Account, order: Order, side: SideText, delta: nat, price: real)
    requires Booked(a) && delta > 0 && order.averagePrice == Some(price)
    requires CheckedOrder(order).Ok? && order.filled > 0 && NormalizeSide(side) == Ok(order.side)
    requires Recordable(side, order.symbol)
    ensures
      var p := Book(a, order, side, delta);
      if order.side == Sell && !(order.symbol in a.positions && a.positions[order.symbol].quantity >= delta as real) then
        && p.error == Some(ValidationFailed) && p.account.journal == a.journal
        && p.account.CurrentCash() == a.CurrentCash() && p.account.positions == a.positions
      else
        && p.error.None? && |p.account.journal| == |a.journal| + 1 && p.account.journal[..|a.journal|] == a.journal
        && IsRecordOf(p.account.journal[|a.journal|], order, delta, price)
  {
    BookKeepsLedger(a, order, side, delta);
    OversellsExactly(a, order, delta);
    if !Oversells(a.Position(order.symbol), Due(order, delta)) {
      RecordIs(order, side, delta, price);
    }
  }

  /** A booked fill moves cash by its shares times its price, and no position but its own. */
  lemma BookedCash(a: Account, order: Order, side: SideText, delta: nat, price: real)
    requires Booked(a) && delta > 0 && order.averagePrice == Some(price)
    requires CheckedOrder(order).Ok? && order.filled > 0 && NormalizeSide(side) == Ok(order.side)
    requires Recordable(side, order.symbol) && Book(a, order, side, delta).error.None?
    ensures
      var b := Book(a, order, side, delta).account;
      && b.CurrentCash() - a.CurrentCash() == CashMove(Due(order, delta))
      && forall x :: x != order.symbol ==> b.Position(x) == a.Position(x)
  {
    BookKeepsLedger(a, order, side, delta);
  }

  /**
   * A lookup books what the script reports beyond the shares filled so far, at the script's
   * price, as one fill of that order; when nothing more is reported it books nothing.
   */
  lemma LookupBooksDifference(s: State, id: string, price: real)
    requires Ledger(s) && Reportable(s, id) && Reads(s.scripts[id].averagePrice, Some(price))
    ensures
      var order, delta, t := s.entries[id].order, s.scripts[id].filled - s.entries[id].order.filled, Poll(s, id).state;
      && (delta <= 0 ==> t.account == s.account)
      && (delta > 0 && Poll(s, id).outcome.Raised? ==> t.account.journal == s.account.journal)
      && (delta > 0 && Poll(s, id).outcome.Ok? ==>
            && |t.account.journal| == |s.account.journal| + 1
            && t.account.journal[..|s.account.journal|] == s.account.journal
            && IsRecordOf(t.account.journal[|s.account.journal|], order.(filled := s.scripts[id].filled), delta, price))
  {
    assert Stored(s.entries[id], id);
    ReportedExactly(s.entries[id].order, s.scripts[id]);
    var delta := s.scripts[id].filled - s.entries[id].order.filled;
    if delta > 0 {
      BookedExactly(s.account, NextSnapshot(s, id), s.entries[id].side, delta, price);
    }
  }

  // ----- every step and every run -----

  ghost predicate Ledger(s: State) {
    WellFormed(s) && Booked(s.account) && AllRecordable(s)
  }

  lemma SubmitKeepsRecordable(s: State, intent: Intent)
    requires AllRecordable(s) && Recordable(intent.side, intent.symbol)
    ensures AllRecordable(Submit(s, intent).state)
  {}

  lemma CancelKeepsRecordable(s: State, id: string)
    requires AllRecordable(s)
    ensures AllRecordable(Cancel(s, id).state)
  {}

  lemma PollKeepsRecordable(s: State, id: string)
    requires WellFormed(s) && AllRecordable(s)
    ensures AllRecordable(Poll(s, id).state)
  {}

  lemma BookingKeepsLedger(s: State, id: string)
    requires Ledger(s) && Reportable(s, id)
    ensures Booked(Booking(s, id).account)
  {
    assert Stored(s.entries[id], id);
    var delta := s.scripts[id].filled - s.entries[id].order.filled;
    if delta > 0 {
      BookKeepsLedger(s.account, NextSnapshot(s, id), s.entries[id].side, delta);
    }
  }

  lemma PollKeepsLedger(s: State, id: string)
    requires Ledger(s)
    ensures Ledger(Poll(s, id).state)
  {
    PollKeepsWellFormed(s, id);
    PollKeepsRecordable(s, id);
    if Reportable(s, id) {
      BookingKeepsLedger(s, id);
    }
  }

  lemma {:induction false} PollAllKeepsLedger(s: State, ids: seq<string>)
    requires Ledger(s)
    ensures Ledger(PollAll(s, ids).state)
    decreases |ids|
  {
    if ids != [] {
      PollKeepsLedger(s, ids[0]);
      if Poll(s, ids[0]).outcome.Ok? {
        PollAllKeepsLedger(Poll(s, ids[0]).state, ids[1..]);
      }
    }
  }

  lemma {:induction false} OfOrderIsFilter(journal: seq<Fill>, id: string, fill: Fill)
    ensures multiset(OfOrder(journal, id))[fill] == if fill.clientOrderId == id then multiset(journal)[fill] else 0
  {
    if journal != [] {
      var init, last := journal[..|journal| - 1], journal[|journal| - 1];
      OfOrderIsFilter(init, id, fill);
      assert journal == init + [last];
    }
  }

  /**
   * A listing of fills looks the order up first and then gives every recorded fill of that
   * order, as often as it was recorded, and no other.
   */
  lemma ListedFillsAreRecorded(s: State, id: string, fill: Fill)
    requires Ledger(s)
    ensures
      var r, looked := ListFills(s, id), Poll(s, id);
      && r.state == looked.state
      && (looked.outcome.Raised? ==> r.outcome == Raised(looked.outcome.error))
      && (looked.outcome.Ok? ==>
            && r.outcome.Ok?
            && multiset(r.outcome.value)[fill]
               == if fill.clientOrderId == id then multiset(looked.state.account.journal)[fill] else 0)
  {
    PollKeepsLedger(s, id);
    OfOrderIsFilter(Poll(s, id).state.account.journal, id, fill);
  }

  /** The outcome scripted last for an order is what its next lookup reports; until then nothing else changes. */
  lemma ScriptIsReportedNext(s: State, id: string, script: Script)
    requires WellFormed(s)
    ensures ScriptFill(s, id, script) == s.(scripts := s.scripts[id := script])
    ensures id in s.entries && Reported(s.entries[id].order, script).Ok? ==>
      var t := Poll(ScriptFill(s, id, script), id).state;
      && Some(t.entries[id].order.status) == script.status && t.entries[id].order.filled == script.filled
      && Reads(script.averagePrice, t.entries[id].order.averagePrice)
  {
    if id in s.entries {
      assert Stored(s.entries[id], id);
      ReportedExactly(s.entries[id].order, script);
    }
  }

  ghost predicate Follows(op: Op) {
    op.SubmitOp? ==> Recordable(op.intent.side, op.intent.symbol)
  }

  lemma SubmitKeepsLedger(s: State, intent: Intent)
    requires Ledger(s) && Recordable(intent.side, intent.symbol)
    ensures Ledger(Submit(s, intent).state)
  {
    SubmitKeepsWellFormed(s, intent);
    SubmitKeepsRecordable(s, intent);
  }

  lemma CancelKeepsLedger(s: State, id: string)
    requires Ledger(s)
    ensures Ledger(Cancel(s, id).state)
  {
    CancelKeepsRecordable(s, id);
    CancelKeepsWellFormed(s, id);
  }

  lemma ScriptKeepsLedger(s: State, id: string, script: Script)
    requires Ledger(s)
    ensures Ledger(ScriptFill(s, id, script))
  {}

  lemma StepKeepsLedger(s: State, op: Op)
    requires Ledger(s) && Follows(op)
    ensures Ledger(Step(s, op))
  {
    match op
    case SubmitOp(intent) => SubmitKeepsLedger(s, intent);
    case ScriptOp(id, script) => ScriptKeepsLedger(s, id, script);
    case CancelOp(id) => CancelKeepsLedger(s, id);
    case PollOp(id) => PollKeepsLedger(s, id);
    case PollMany(ids) => PollAllKeepsLedger(s, ids);
    case ListOpenOp => PollAllKeepsLedger(s, OpenIds(s.ids, s.entries));
    case ListFillsOp(id) => PollKeepsLedger(s, id);
  }

  lemma {:induction false} RunKeepsLedger(s: State, ops: seq<Op>)
    requires Ledger(s) && forall op <- ops :: Follows(op)
    ensures Ledger(Run(s, ops))
    decreases |ops|
  {
    if ops != [] {
      assert ops[0] in ops;
      StepKeepsLedger(s, ops[0]);
      RunKeepsLedger(Step(s, ops[0]), ops[1..]);
    }
  }

  lemma {:induction false} PollAllKeepsStart(s: State, ids: seq<string>)
    requires WellFormed(s)
    ensures PollAll(s, ids).state.account.startingCash == s.account.startingCash
    decreases |ids|
  {
    if ids != [] {
      PollKeepsWellFormed(s, ids[0]);
      if Poll(s, ids[0]).outcome.Ok? {
        PollAllKeepsStart(Poll(s, ids[0]).state, ids[1..]);
      }
    }
  }

  lemma {:induction false} RunKeepsStart(s: State, ops: seq<Op>)
    requires WellFormed(s)
    ensures Run(s, ops).account.startingCash == s.account.startingCash
    decreases |ops|
  {
    if ops != [] {
      match ops[0] {
        case PollMany(ids) => PollAllKeepsStart(s, ids);
        case ListOpenOp => PollAllKeepsStart(s, OpenIds(s.ids, s.entries));
        case _ =>
      }
      RunKeepsStart(Step(s, ops[0]), ops[1..]);
    }
  }

  /** What an exact account says of one symbol, in terms of its recorded fills alone. */
  lemma BookedReadout(a: Account, symbol: string)
    requires Booked(a)
    ensures
      var ts := Trades(a.journal);
      && NetShares(ts, symbol) >= 0.0
      && (symbol in a.positions <==> NetShares(ts, symbol) > 0.0)
      && (symbol in a.positions ==>
            && a.positions[symbol].quantity == NetShares(ts, symbol) == RowOf(ts, symbol).quantity
            && a.positions[symbol].average == RowOf(ts, symbol).cost / RowOf(ts, symbol).quantity)
  {
    var ts := Trades(a.journal);
    assert a.Position(symbol) == HoldingOf(ts, symbol);
    HoldingIsNetShares(ts, symbol);
    ReplayRefinesAverage(ts, symbol);
    if symbol in a.positions {
      AverageFromRow(RowOf(ts, symbol), a.positions[symbol]);
    }
  }

  /**
   * In every state any interleaving can reach, including past lookups that raised: cash is
   * the starting cash less every recorded purchase plus every recorded sale; each position
   * is the shares bought less the shares sold, present exactly when that is positive; and
   * its average price is the one the legacy cost replay of the same fills computes.
   */
  lemma LedgerIsExactInEveryRun(startingCash: real, ops: seq<Op>, symbol: string)
    requires forall op <- ops :: Follows(op)
    ensures
      var a := Run(Opened(startingCash), ops).account;
      var ts := Trades(a.journal);
      && a.CurrentCash() == startingCash + CashFlow(ts)
      && NetShares(ts, symbol) >= 0.0
      && (symbol in a.positions <==> NetShares(ts, symbol) > 0.0)
      && (symbol in a.positions ==>
            && a.positions[symbol].quantity == NetShares(ts, symbol) == RowOf(ts, symbol).quantity
            && a.positions[symbol].average == RowOf(ts, symbol).cost / RowOf(ts, symbol).quantity)
      && (forall id :: a.FillsOf(id) == OfOrder(a.journal, id))
  {
    RunKeepsLedger(Opened(startingCash), ops);
    RunKeepsStart(Opened(startingCash), ops);
    BookedReadout(Run(Opened(startingCash), ops).account, symbol);
  }

  // ----- why submissions must be recordable -----

  /** Submits an order, scripts its outcome and looks it up. */
  function SubmittedAndFilled(s: State, intent: Intent, script: Script): State
    requires WellFormed(s)
  {
    var id := intent.idempotencyKey;
    SubmitKeepsWellFormed(s, intent);
    Poll(ScriptFill(Submit(s, intent).state, id, script), id).state
  }

  /** Filling an unrecordable order in full breaks the account. */
  lemma UnrecordableBreaksLedger(s: State, intent: Intent, price: real)
    requires Ledger(s) && intent.idempotencyKey !in s.entries && Acknowledged(intent).Ok?
    requires !Recordable(intent.side, intent.symbol) && price > 0.0
    ensures
      var fullFill := Script(Some(Filled), intent.quantity, Some(Number("", price)), Raw(""));
      !Booked(SubmittedAndFilled(s, intent, fullFill).account)
  {
    var order := Acknowledged(intent).value;
    var fullFill := Script(Some(Filled), intent.quantity, Some(Number("", price)), Raw(""));
    var updated := Reported(order, fullFill).value;
    assert SubmittedAndFilled(s, intent, fullFill).account
        == Book(s.account, updated, intent.side, intent.quantity).account;
    UnrecordableBookBreaks(s.account, updated, intent.side, intent.quantity);
  }

  ghost predicate CashIsExact(a: Account) {
    a.CurrentCash() == a.startingCash + CashFlow(Trades(a.journal))
  }

  lemma BookedCashIsExact(a: Account)
    requires Booked(a)
    ensures CashIsExact(a)
  {}

  lemma UnrecordableBookBreaks(a: Account, order: Order, side: SideText, delta: nat)
    requires Booked(a) && delta > 0 && CheckedOrder(order).Ok? && order.filled > 0
    requires NormalizeSide(side) == Ok(order.side) && !Recordable(side, order.symbol)
    ensures !Booked(Book(a, order, side, delta).account)
  {
    BookedCashIsExact(a);
    if order.symbol == "" {
      CashSpentWithoutPosition(a, order, side, delta);
    } else {
      AveragesArePositive(a);
      PurchaseRecordedAsSale(a, order, side, delta);
    }
  }

  lemma PositiveValue(price: real, shares: real)
    requires price > 0.0 && shares > 0.0
    ensures price * shares > 0.0
  {}

  /** The cash falls although the position is refused and no fill is recorded. */
  lemma CashSpentWithoutPosition(a: Account, order: Order, side: SideText, delta: nat)
    requires a.Positive() && delta > 0 && CheckedOrder(order).Ok? && order.filled > 0
    requires side != Canonical(Sell) && order.symbol == "" && CashIsExact(a)
    ensures !CashIsExact(Book(a, order, side, delta).account)
  {
    PositiveValue(order.averagePrice.value, delta as real);
  }

  /** What is booked for a respelled sale: a purchase, recorded as a sale. */
  lemma RespelledSaleBuys(a: Account, order: Order, side: SideText, delta: nat)
    requires a.Positive() && delta > 0 && CheckedOrder(order).Ok? && order.filled > 0
    requires side.Respelled? && side.side == Sell && order.symbol != ""
    requires forall x <- a.positions :: a.positions[x].average > 0.0
    ensures
      var b, price := Book(a, order, side, delta).account, order.averagePrice.value;
      && RecordOf(order, side, delta, price).Ok?
      && b.CurrentCash() == a.CurrentCash() - price * delta as real
      && b.journal == a.journal + [RecordOf(order, side, delta, price).value]
      && b.startingCash == a.startingCash
  {
    BoughtAverageIsPositive(a.Position(order.symbol), delta as real, order.averagePrice.value);
  }

  lemma CashFlowExtended(journal: seq<Fill>, fill: Fill)
    ensures CashFlow(Trades(journal + [fill])) == CashFlow(Trades(journal)) + CashMove(fill.AsTrade())
  {
    JournalExtended(journal, fill);
    var ts := Trades(journal) + [fill.AsTrade()];
    assert ts[..|journal|] == Trades(journal);
  }

  /** The cash falls by the value of a fill that is recorded as having raised it. */
  lemma PurchaseRecordedAsSale(a: Account, order: Order, side: SideText, delta: nat)
    requires a.Positive() && delta > 0 && CheckedOrder(order).Ok? && order.filled > 0
    requires side.Respelled? && side.side == Sell && order.symbol != "" && CashIsExact(a)
    requires forall x <- a.positions :: a.positions[x].average > 0.0
    ensures !CashIsExact(Book(a, order, side, delta).account)
  {
    RespelledSaleBuys(a, order, side, delta);
    var price := order.averagePrice.value;
    var fill := RecordOf(order, side, delta, price).value;
    PositiveValue(price, delta as real);
    CashFlowExtended(a.journal, fill);
    assert CashMove(fill.AsTrade()) == price * delta as real;
  }

  /**
   * The condition on submissions is exact: an acknowledged new order keeps the account exact
   * under every scripted outcome if and only if it is recordable.
   */
  lemma RecordableIsExact(s: State, intent: Intent)
    requires Ledger(s) && intent.idempotencyKey !in s.entries && Acknowledged(intent).Ok?
    ensures Recordable(intent.side, intent.symbol)
            <==> forall script :: Booked(SubmittedAndFilled(s, intent, script).account)
  {
    if Recordable(intent.side, intent.symbol) {
      forall script
        ensures Booked(SubmittedAndFilled(s, intent, script).account)
      {
        SubmitKeepsLedger(s, intent);
        ScriptKeepsLedger(Submit(s, intent).state, intent.idempotencyKey, script);
        PollKeepsLedger(ScriptFill(Submit(s, intent).state, intent.idempotencyKey, script), intent.idempotencyKey);
      }
    } else {
      UnrecordableBreaksLedger(s, intent, 1.0);
    }
  }
}

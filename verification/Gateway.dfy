/**
 * The in-memory paper gateway and the dispatcher in front of it, as objects that update
 * their fields in place. Each method is proved against the transition it specifies.
 */
module Gateway {
  import opened Prelude
  import opened AverageCost
  import opened BrokerModels
  import Broker
  import Admission

  class DeterministicBrokerGateway {
    const startingCash: real
    var ids: seq<string>
    var entries: map<string, Broker.Entry>
    var scripts: map<string, Script>
    var positions: map<string, Holding>
    var fills: map<string, seq<Fill>>
    var cash: Option<real>
    var submitCalls: seq<string>
    ghost var journal: seq<Fill>

    ghost function Account(): Broker.Account
      reads this
    {
      Broker.Account(startingCash, cash, positions, fills, journal)
    }

    ghost function State(): Broker.State
      reads this
    {
      Broker.State(ids, entries, scripts, submitCalls, Account())
    }

    ghost predicate Valid()
      reads this
    {
      Broker.WellFormed(State())
    }

    constructor (startingCash: real)
      ensures Valid() && State() == Broker.Opened(startingCash)
    {
      this.startingCash := startingCash;
      ids, entries := [], map[];
      scripts, positions, fills, cash, submitCalls := map[], map[], map[], None, [];
      journal := [];
    }

    method ScriptFill(id: string, script: Script)
      requires Valid()
      modifies this`scripts
      ensures Valid() && State() == Broker.ScriptFill(old(State()), id, script)
    {
      scripts := scripts[id := script];
    }

    method SubmitOrder(intent: Intent) returns (r: Attempt<Order>)
      requires Valid()
      modifies this
      ensures Valid() && State() == Broker.Submit(old(State()), intent).state
      ensures r == Broker.Submit(old(State()), intent).outcome
    {
      Broker.SubmitKeepsWellFormed(State(), intent);
      var key := intent.idempotencyKey;
      submitCalls := submitCalls + [key];
      var fingerprint := Broker.FingerprintOf(intent);
      if key in entries {
        if entries[key].fingerprint != fingerprint {
          return Raised(IdempotencyConflict);
        }
        return Ok(entries[key].order);
      }
      r := Acknowledged(intent);
      if r.Ok? {
        ids := ids + [key];
        entries := entries[key := Broker.Entry(r.value, intent.side, fingerprint)];
      }
    }

    method ApplyPosition(symbol: string, side: SideText, quantity: nat, price: real) returns (error: Option<ErrorCode>)
      requires quantity > 0 && Account().Positive()
      modifies this`cash, this`positions
      ensures Account() == Broker.ApplyPosition(old(Account()), symbol, side, quantity, price).account
      ensures error == Broker.ApplyPosition(old(Account()), symbol, side, quantity, price).error
    {
      ghost var before := Account();
      var existing := if symbol in positions then Some(positions[symbol]) else None;
      assert existing == before.Position(symbol);
      if cash.None? {
        cash := Some(startingCash);
      }
      var value := price * quantity as real;
      if side == Canonical(Sell) {
        if existing.None? || existing.value.quantity < quantity as real {
          return Some(ValidationFailed);
        }
        var newQuantity := existing.value.quantity - quantity as real;
        cash := Some(cash.value + value);
        if newQuantity == 0.0 {
          positions := positions - {symbol};
          return None;
        }
        error := PutPosition(symbol, Holding(newQuantity, existing.value.average));
        return;
      }
      cash := Some(cash.value - value);
      ghost var paid := Account();
      assert paid == before.(cash := Some(before.CurrentCash() - value));
      error := PutPosition(symbol, Bought(existing, quantity as real, price));
      PurchaseOutcome(before, symbol, side, quantity, price);
    }

    method PutPosition(symbol: string, h: Holding) returns (error: Option<ErrorCode>)
      requires Account().Positive() && h.quantity > 0.0
      modifies this`positions
      ensures Account() == Broker.PutPosition(old(Account()), symbol, h).account
      ensures error == Broker.PutPosition(old(Account()), symbol, h).error
    {
      if h.average <= 0.0 {
        return Some(MalformedPayload);
      }
      if symbol == "" {
        return Some(ValidationFailed);
      }
      positions := positions[symbol := h];
      return None;
    }

    /** Moves the position and records the fill of an order's new shares; either may raise. */
    method BookFill(order: Order, side: SideText, delta: nat) returns (error: Option<ErrorCode>)
      requires Account().Positive() && delta > 0 && order.filled > 0 && order.averagePrice.Some?
      modifies this`cash, this`positions, this`fills, this`journal
      ensures Account() == Broker.Book(old(Account()), order, side, delta).account
      ensures error == Broker.Book(old(Account()), order, side, delta).error
    {
      var price := order.averagePrice.value;
      error := ApplyPosition(order.symbol, side, delta, price);
      if error.Some? {
        return;
      }
      var fill := Broker.RecordOf(order, side, delta, price);
      if fill.Raised? {
        return Some(fill.error);
      }
      var id := order.clientOrderId;
      fills := fills[id := (if id in fills then fills[id] else []) + [fill.value]];
      journal := journal + [fill.value];
    }

    method GetOrder(id: string) returns (r: Attempt<Option<Order>>)
      requires Valid()
      modifies this
      ensures Valid() && State() == Broker.Poll(old(State()), id).state
      ensures r == Broker.Poll(old(State()), id).outcome
    {
      Broker.PollKeepsWellFormed(State(), id);
      if id !in entries {
        return Ok(None);
      }
      if id !in scripts {
        return Ok(Some(entries[id].order));
      }
      var existing := entries[id].order;
      assert Broker.Stored(entries[id], id);
      var reported := Reported(existing, scripts[id]);
      if reported.Raised? {
        return Raised(reported.error);
      }
      var updated := reported.value;
      var delta := updated.filled - existing.filled;
      entries := entries[id := entries[id].(order := updated)];
      if delta > 0 {
        var error := BookFill(updated, entries[id].side, delta);
        if error.Some? {
          return Raised(error.value);
        }
      }
      return Ok(Some(updated));
    }

    method ListOrderFills(id: string) returns (r: Attempt<seq<Fill>>)
      requires Valid()
      modifies this
      ensures Valid() && State() == Broker.ListFills(old(State()), id).state
      ensures r == Broker.ListFills(old(State()), id).outcome
    {
      var looked := GetOrder(id);
      if looked.Raised? {
        return Raised(looked.error);
      }
      return Ok(if id in fills then fills[id] else []);
    }

    /** Looks the given orders up one after the other, as every listing does. */
    method GetOrders(wanted: seq<string>) returns (r: Attempt<seq<Order>>)
      requires Valid()
      modifies this
      ensures Valid() && State() == Broker.PollAll(old(State()), wanted).state
      ensures r == Broker.PollAll(old(State()), wanted).outcome
    {
      var found: seq<Order> := [];
      var i := 0;
      ghost var whole := Broker.PollAll(State(), wanted);
      assert wanted[0..] == wanted;
      assert whole.outcome.Ok? ==> found + whole.outcome.value == whole.outcome.value;
      while i < |wanted|
        invariant 0 <= i <= |wanted|
        invariant Valid()
        invariant whole == Prefixed(found, Broker.PollAll(State(), wanted[i..]))
      {
        ghost var before, rest := found, wanted[i..];
        assert rest[1..] == wanted[i + 1..];
        ghost var s := State();
        var looked := GetOrder(wanted[i]);
        if looked.Raised? {
          return Raised(looked.error);
        }
        if looked.value.Some? {
          found := found + [looked.value.value];
        }
        PrefixedByOneMore(s, rest, before);
        Regroup(before, [], []);
        i := i + 1;
      }
      assert wanted[i..] == [] && found + [] == found;
      return Ok(found);
    }

    method FindOpen() returns (open: seq<string>)
      ensures open == Broker.OpenIds(ids, entries)
    {
      open := [];
      var known, stored := ids, entries;
      var i := 0;
      assert known[0..] == known;
      while i < |known|
        invariant 0 <= i <= |known|
        invariant Broker.OpenIds(known, stored) == open + Broker.OpenIds(known[i..], stored)
      {
        assert known[i..][1..] == known[i + 1..];
        OpenIdsByOneMore(open, known[i..], stored);
        if known[i] in stored && !Broker.Closed(stored[known[i]].order.status) {
          open := open + [known[i]];
        }
        i := i + 1;
      }
    }

    method ListOpenOrders() returns (r: Attempt<seq<Order>>)
      requires Valid()
      modifies this
      ensures Valid() && State() == Broker.ListOpen(old(State())).state
      ensures r == Broker.ListOpen(old(State())).outcome
    {
      var open := FindOpen();
      r := GetOrders(open);
    }

    method CancelOrder(id: string) returns (r: Attempt<Order>)
      requires Valid()
      modifies this
      ensures Valid() && State() == Broker.Cancel(old(State()), id).state
      ensures r == Broker.Cancel(old(State()), id).outcome
    {
      Broker.CancelKeepsWellFormed(State(), id);
      if id !in entries {
        return Raised(UnknownOrder);
      }
      if Broker.Closed(entries[id].order.status) {
        return Ok(entries[id].order);
      }
      r := CheckedOrder(entries[id].order.(status := Cancelled, rawStatus := Canceled));
      if r.Ok? {
        entries := entries[id := entries[id].(order := r.value)];
        scripts := scripts - {id};
      }
    }
  }

  lemma PurchaseOutcome(a: Broker.Account, symbol: string, side: SideText, quantity: nat, price: real)
    requires quantity > 0 && a.Positive() && side != Canonical(Sell)
    ensures
      var paid := a.(cash := Some(a.CurrentCash() - price * quantity as real));
      Broker.ApplyPosition(a, symbol, side, quantity, price)
      == Broker.PutPosition(paid, symbol, Bought(a.Position(symbol), quantity as real, price))
  {}

  /** A listing continued after some orders have already been found. */
  function Prefixed(found: seq<Order>, rest: Broker.Reply<seq<Order>>): Broker.Reply<seq<Order>> {
    if rest.outcome.Raised? then rest else Broker.Reply(rest.state, Ok(found + rest.outcome.value))
  }

  lemma Regroup<T>(a: seq<T>, b: seq<T>, c: seq<T>)
    ensures a + (b + c) == (a + b) + c && a + [] == a
  {}

  lemma OpenIdsByOneMore(open: seq<string>, ids: seq<string>, entries: map<string, Broker.Entry>)
    requires ids != []
    ensures
      open + Broker.OpenIds(ids, entries) ==
      (if ids[0] in entries && !Broker.Closed(entries[ids[0]].order.status) then open + [ids[0]] else open)
      + Broker.OpenIds(ids[1..], entries)
  {
    Regroup(open, [ids[0]], Broker.OpenIds(ids[1..], entries));
  }

  /** The orders one lookup adds to a listing. */
  function Found(looked: Option<Order>): seq<Order> {
    if looked.Some? then [looked.value] else []
  }

  lemma PrefixedConcat(found: seq<Order>, one: seq<Order>, rest: Broker.Reply<seq<Order>>)
    ensures Prefixed(found, Prefixed(one, rest)) == Prefixed(found + one, rest)
  {
    if rest.outcome.Ok? {
      Regroup(found, one, rest.outcome.value);
    }
  }

  lemma PollAllByOneMore(s: Broker.State, ids: seq<string>)
    requires Broker.WellFormed(s) && ids != [] && Broker.Poll(s, ids[0]).outcome.Ok?
    ensures Broker.WellFormed(Broker.Poll(s, ids[0]).state)
    ensures Broker.PollAll(s, ids) ==
            Prefixed(Found(Broker.Poll(s, ids[0]).outcome.value), Broker.PollAll(Broker.Poll(s, ids[0]).state, ids[1..]))
  {
    Broker.PollKeepsWellFormed(s, ids[0]);
  }

  lemma PrefixedByOneMore(s: Broker.State, ids: seq<string>, found: seq<Order>)
    requires Broker.WellFormed(s) && ids != [] && Broker.Poll(s, ids[0]).outcome.Ok?
    ensures Broker.WellFormed(Broker.Poll(s, ids[0]).state)
    ensures
      var first := Broker.Poll(s, ids[0]);
      Prefixed(found, Broker.PollAll(s, ids)) ==
      Prefixed(found + Found(first.outcome.value), Broker.PollAll(first.state, ids[1..]))
  {
    PollAllByOneMore(s, ids);
    var first := Broker.Poll(s, ids[0]);
    PrefixedConcat(found, Found(first.outcome.value), Broker.PollAll(first.state, ids[1..]));
  }

  class Dispatcher {
    const gateway: DeterministicBrokerGateway

    constructor (gateway: DeterministicBrokerGateway)
      ensures this.gateway == gateway
    {
      this.gateway := gateway;
    }

    method ValidateConfirmedLong(symbol: string, quantity: int, exclude: string) returns (r: Attempt<()>)
      requires gateway.Valid()
      modifies gateway
      ensures gateway.Valid()
      ensures gateway.State() == Admission.ValidateConfirmedLong(old(gateway.State()), symbol, quantity, exclude).state
      ensures r == Admission.ValidateConfirmedLong(old(gateway.State()), symbol, quantity, exclude).outcome
    {
      if symbol !in gateway.positions {
        return Raised(ValidationFailed);
      }
      var confirmed := ParseExactInt(gateway.positions[symbol].quantity);
      if confirmed.Raised? {
        return Raised(confirmed.error);
      }
      var listed := gateway.ListOpenOrders();
      if listed.Raised? {
        return Raised(listed.error);
      }
      var committed := 0;
      for i := 0 to |listed.value|
        invariant committed == Admission.Committed(listed.value[..i], symbol, exclude)
      {
        assert listed.value[..i + 1][..i] == listed.value[..i];
        var order := listed.value[i];
        if order.symbol != symbol || order.side != Sell {
          continue;
        }
        if !Admission.Active(order.status) {
          continue;
        }
        if order.clientOrderId == exclude {
          continue;
        }
        var remaining := order.quantity - order.filled;
        if remaining > 0 {
          committed := committed + remaining;
        }
      }
      assert listed.value[..|listed.value|] == listed.value;
      if confirmed.value - committed < quantity {
        return Raised(ValidationFailed);
      }
      return Ok(());
    }

    method SubmitOrder(intent: Intent, now: int) returns (r: Attempt<Order>)
      requires gateway.Valid()
      modifies gateway
      ensures gateway.Valid()
      ensures gateway.State() == Admission.SubmitOrder(old(gateway.State()), intent, now).state
      ensures r == Admission.SubmitOrder(old(gateway.State()), intent, now).outcome
    {
      var valid := Admission.Validate(intent, now);
      if valid.Raised? {
        return Raised(valid.error);
      }
      if intent.side == Canonical(Sell) {
        var gate := ValidateConfirmedLong(intent.symbol, intent.quantity, intent.idempotencyKey);
        if gate.Raised? {
          return Raised(gate.error);
        }
      }
      r := gateway.SubmitOrder(intent);
    }

    /** The broker-neutral submission; `accountMatches` compares the caller's account fingerprint with the gateway's. */
    method SubmitLimitOrder(intent: Intent, now: int, accountMatches: bool) returns (r: Attempt<Order>)
      requires gateway.Valid()
      modifies gateway
      ensures gateway.Valid()
      ensures gateway.State() == Admission.SubmitLimitOrder(old(gateway.State()), intent, now, accountMatches).state
      ensures r == Admission.SubmitLimitOrder(old(gateway.State()), intent, now, accountMatches).outcome
    {
      if !Admission.IsExternalIntent(intent) {
        return Raised(MalformedPayload);
      }
      var valid := Admission.Validate(intent, now);
      if valid.Raised? {
        return Raised(valid.error);
      }
      if !accountMatches {
        return Raised(ValidationFailed);
      }
      r := SubmitOrder(intent, now);
    }

    method Preview(intent: Intent, now: int, accountMatches: bool) returns (r: Attempt<()>)
      requires gateway.Valid()
      modifies gateway
      ensures gateway.Valid()
      ensures gateway.State() == Admission.Preview(old(gateway.State()), intent, now, accountMatches).state
      ensures r == Admission.Preview(old(gateway.State()), intent, now, accountMatches).outcome
    {
      if !Admission.IsExternalIntent(intent) {
        return Raised(MalformedPayload);
      }
      r := Admission.Validate(intent, now);
      if r.Raised? {
        return;
      }
      if !accountMatches {
        return Raised(ValidationFailed);
      }
      if intent.side == Canonical(Sell) {
        r := ValidateConfirmedLong(intent.symbol, intent.quantity, intent.idempotencyKey);
      }
    }
  }
}

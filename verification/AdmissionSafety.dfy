/**
 * Long-only safety of the whole paper runtime: when orders enter only through the
 * dispatcher, open SELL orders never claim more than is held, so no fill is ever refused.
 */
module AdmissionSafety {
  import opened Prelude
  import opened AverageCost
  import opened BrokerModels
  import opened Broker
  import opened BrokerLedger
  import opened BrokerFills
  import opened Admission

  // ----- the invariant -----

  ghost predicate Listed(s: State) {
    Distinct(s.ids) && forall id :: id in s.ids <==> id in s.entries
  }

  function Held(a: Account, symbol: string): real {
    QuantityOf(a.Position(symbol))
  }

  /** Open SELL orders never commit more shares of a symbol than are held. */
  ghost predicate Covered(s: State) {
    forall symbol :: Exposure(s.ids, s.entries, symbol) as real <= Held(s.account, symbol)
  }

  /**
   * A pending script is monotone; on an order that is no longer active it is the one
   * already applied.
   */
  ghost predicate Disciplined(s: State, id: string)
    requires Reportable(s, id)
  {
    var order, next := s.entries[id].order, NextSnapshot(s, id);
    && next.filled >= order.filled
    && (Active(order.status) || (next.filled == order.filled && !Active(next.status)))
  }

  ghost predicate AllDisciplined(s: State) {
    forall id <- s.scripts :: Reportable(s, id) ==> Disciplined(s, id)
  }

  ghost predicate Guarded(s: State) {
    Ledger(s) && Counted(s) && Listed(s) && AllDisciplined(s) && Covered(s)
  }

  // ----- lookups -----

  /** Shares of its symbol a lookup is about to take out of the position; negative for a purchase. */
  function Leaving(s: State, id: string): int
    requires Reportable(s, id)
  {
    var o, n := s.entries[id].order, NextSnapshot(s, id);
    if n.side == Sell then n.filled - o.filled else o.filled - n.filled
  }

  /** Under the invariant an open order's pending sale is covered by its position. */
  lemma PendingSaleIsCovered(s: State, id: string)
    requires Guarded(s) && Reportable(s, id) && NextSnapshot(s, id).filled > s.entries[id].order.filled
    ensures !Oversells(s.account.Position(NextSnapshot(s, id).symbol),
                       Due(NextSnapshot(s, id), NextSnapshot(s, id).filled - s.entries[id].order.filled))
  {
    assert Disciplined(s, id) && Stored(s.entries[id], id);
    var o := s.entries[id].order;
    ExposureCovers(s.ids, s.entries, id, o.symbol);
    assert Exposure(s.ids, s.entries, o.symbol) as real <= Held(s.account, o.symbol);
  }

  /** What booking a covered trade does to a holding. */
  lemma CoveredBooking(a: Account, n: Order, side: SideText, delta: nat, symbol: string)
    requires Booked(a) && delta > 0
    requires CheckedOrder(n).Ok? && n.filled > 0 && NormalizeSide(side) == Ok(n.side) && Recordable(side, n.symbol)
    requires !Oversells(a.Position(n.symbol), Due(n, delta))
    ensures Book(a, n, side, delta).error.None?
    ensures Held(Book(a, n, side, delta).account, symbol) ==
            Held(a, symbol) - if symbol == n.symbol then (if n.side == Sell then delta else 0 - delta) as real else 0.0
  {
    BookKeepsLedger(a, n, side, delta);
    TradedQuantity(a.Position(n.symbol), Due(n, delta));
  }

  lemma BookingIsBook(s: State, id: string)
    requires WellFormed(s) && Reportable(s, id) && NextSnapshot(s, id).filled > s.entries[id].order.filled
    ensures var n, e := NextSnapshot(s, id), s.entries[id];
            && n.filled > 0 && NormalizeSide(e.side) == Ok(n.side)
            && Booking(s, id) == Book(s.account, n, e.side, n.filled - e.order.filled)
  {
    assert Stored(s.entries[id], id);
  }

  /** What a lookup does to a holding under the invariant: it meets no refusal and moves just the shares reported. */
  lemma LookupMoves(s: State, id: string, symbol: string)
    requires Guarded(s) && Reportable(s, id)
    ensures Booking(s, id).error.None?
    ensures Held(Booking(s, id).account, symbol) ==
            Held(s.account, symbol) - if symbol == NextSnapshot(s, id).symbol then Leaving(s, id) as real else 0.0
  {
    assert Disciplined(s, id);
    if NextSnapshot(s, id).filled > s.entries[id].order.filled {
      PendingSaleIsCovered(s, id);
      BookingIsBook(s, id);
      CoveredBooking(s.account, NextSnapshot(s, id), s.entries[id].side,
                     NextSnapshot(s, id).filled - s.entries[id].order.filled, symbol);
    }
  }

  /** Under the invariant a lookup never meets a sale the position does not cover. */
  lemma LookupIsCovered(s: State, id: string)
    requires Guarded(s) && Reportable(s, id)
    ensures Smooth(s, id)
    ensures forall x :: Held(Booking(s, id).account, x) ==
                        Held(s.account, x) - if x == NextSnapshot(s, id).symbol then Leaving(s, id) as real else 0.0
  {
    LookupMoves(s, id, NextSnapshot(s, id).symbol);
    forall x
      ensures Held(Booking(s, id).account, x) ==
              Held(s.account, x) - if x == NextSnapshot(s, id).symbol then Leaving(s, id) as real else 0.0
    {
      LookupMoves(s, id, x);
    }
  }

  lemma LookupKeepsCovered(s: State, id: string)
    requires Guarded(s) && Reportable(s, id)
    ensures Covered(Poll(s, id).state)
  {
    LookupIsCovered(s, id);
    assert Disciplined(s, id) && Stored(s.entries[id], id);
    var t, o, n := Poll(s, id).state, s.entries[id].order, NextSnapshot(s, id);
    forall x
      ensures Exposure(t.ids, t.entries, x) as real <= Held(t.account, x)
    {
      ExposureReplaced(s.ids, s.entries, id, t.entries[id], x);
      assert Exposure(s.ids, s.entries, x) as real <= Held(s.account, x);
    }
  }

  lemma LookupKeepsDiscipline(s: State, id: string)
    requires WellFormed(s) && AllDisciplined(s)
    ensures AllDisciplined(Poll(s, id).state)
  {
    var t := Poll(s, id).state;
    forall x | x in t.scripts && Reportable(t, x)
      ensures Disciplined(t, x)
    {
      if Reportable(s, id) {
        assert Disciplined(s, id);
      }
      if x != id {
        assert Reportable(s, x) && Disciplined(s, x);
      }
    }
  }

  lemma PollKeepsGuarded(s: State, id: string)
    requires Guarded(s)
    ensures Smooth(s, id) && Guarded(Poll(s, id).state)
  {
    PollKeepsLedger(s, id);
    LookupKeepsDiscipline(s, id);
    if Reportable(s, id) {
      LookupIsCovered(s, id);
      LookupKeepsCovered(s, id);
    }
    PollKeepsCount(s, id);
  }

  lemma {:induction false} PollAllKeepsGuarded(s: State, ids: seq<string>)
    requires Guarded(s)
    ensures AllSmooth(s, ids) && Guarded(PollAll(s, ids).state)
    decreases |ids|
  {
    if ids != [] {
      PollKeepsGuarded(s, ids[0]);
      if Poll(s, ids[0]).outcome.Ok? {
        PollAllKeepsGuarded(Poll(s, ids[0]).state, ids[1..]);
      }
    }
  }

  // ----- scripts, cancellations and new orders -----

  lemma ScriptKeepsGuarded(s: State, id: string, script: Script)
    requires Guarded(s) && Monotone(s, id, script)
    requires id in s.entries ==> Active(s.entries[id].order.status)
    ensures Guarded(ScriptFill(s, id, script))
  {
    ScriptKeepsLedger(s, id, script);
    ScriptKeepsCount(s, id, script);
    ScriptKeepsDiscipline(s, id, script);
  }

  lemma ScriptKeepsDiscipline(s: State, id: string, script: Script)
    requires AllDisciplined(s) && Monotone(s, id, script)
    requires id in s.entries ==> Active(s.entries[id].order.status)
    ensures AllDisciplined(ScriptFill(s, id, script))
  {
    var t := ScriptFill(s, id, script);
    forall x | x in t.scripts && Reportable(t, x)
      ensures Disciplined(t, x)
    {
      if x != id {
        assert Reportable(s, x) && Disciplined(s, x);
      }
    }
  }

  lemma CancelKeepsCovered(s: State, id: string)
    requires WellFormed(s) && Listed(s) && Covered(s)
    ensures Listed(Cancel(s, id).state) && Covered(Cancel(s, id).state)
  {
    var t := Cancel(s, id).state;
    if id in s.entries && t.entries != s.entries {
      forall x
        ensures Exposure(t.ids, t.entries, x) as real <= Held(t.account, x)
      {
        ExposureReplaced(s.ids, s.entries, id, t.entries[id], x);
        assert Exposure(s.ids, s.entries, x) as real <= Held(s.account, x);
      }
    }
  }

  lemma CancelKeepsDiscipline(s: State, id: string)
    requires AllDisciplined(s)
    ensures AllDisciplined(Cancel(s, id).state)
  {
    var t := Cancel(s, id).state;
    forall x | x in t.scripts && Reportable(t, x)
      ensures Disciplined(t, x)
    {
      assert Reportable(s, x) && Disciplined(s, x);
    }
  }

  lemma CancelKeepsGuarded(s: State, id: string)
    requires Guarded(s)
    ensures Guarded(Cancel(s, id).state)
  {
    CancelKeepsLedger(s, id);
    CancelKeepsCount(s, id);
    CancelKeepsCovered(s, id);
    CancelKeepsDiscipline(s, id);
  }

  lemma SubmitKeepsDiscipline(s: State, intent: Intent)
    requires AllDisciplined(s)
    ensures AllDisciplined(Submit(s, intent).state)
  {
    var t := Submit(s, intent).state;
    forall x | x in t.scripts && Reportable(t, x)
      ensures Disciplined(t, x)
    {
      if x in s.entries {
        assert Reportable(s, x) && Disciplined(s, x);
      }
    }
  }

  /** Shares the gate must find free for a submission: those of a new SELL, none otherwise. */
  function Claim(s: State, intent: Intent): int {
    if intent.idempotencyKey in s.entries || NormalizeSide(intent.side) != Ok(Sell) then 0 else intent.quantity
  }

  lemma SubmitKeepsCovered(s: State, intent: Intent)
    requires Listed(s) && Covered(s)
    requires Exposure(s.ids, s.entries, intent.symbol) as real + Claim(s, intent) as real
             <= Held(s.account, intent.symbol)
    ensures Listed(Submit(s, intent).state) && Covered(Submit(s, intent).state)
  {
    var t, key := Submit(s, intent).state, intent.idempotencyKey;
    if key !in s.entries && Acknowledged(intent).Ok? {
      forall x
        ensures Exposure(t.ids, t.entries, x) as real <= Held(t.account, x)
      {
        ExposureAppended(s.ids, t.entries, key, x);
        ExposureUnchanged(s.ids, s.entries, t.entries, x);
        assert Exposure(s.ids, s.entries, x) as real <= Held(s.account, x);
      }
    }
  }

  lemma SubmitKeepsGuarded(s: State, intent: Intent)
    requires Guarded(s) && Recordable(intent.side, intent.symbol)
    requires Exposure(s.ids, s.entries, intent.symbol) as real + Claim(s, intent) as real
             <= Held(s.account, intent.symbol)
    ensures Guarded(Submit(s, intent).state)
  {
    SubmitKeepsLedger(s, intent);
    SubmitKeepsCount(s, intent);
    SubmitKeepsDiscipline(s, intent);
    SubmitKeepsCovered(s, intent);
  }

  // ----- what the gate learns -----

  /** No open sale of the symbol has a pending script that reports further shares sold. */
  ghost predicate Settled(s: State, symbol: string) {
    forall id <- s.entries ::
      s.entries[id].order.symbol == symbol && s.entries[id].order.side == Sell && Reportable(s, id)
      ==> NextSnapshot(s, id).filled == s.entries[id].order.filled
  }

  lemma PollWhileSettled(s: State, id: string, symbol: string)
    requires Guarded(s) && Settled(s, symbol)
    ensures Guarded(Poll(s, id).state) && Settled(Poll(s, id).state, symbol)
    ensures Held(s.account, symbol) <= Held(Poll(s, id).state.account, symbol)
  {
    PollKeepsGuarded(s, id);
    var t := Poll(s, id).state;
    if Reportable(s, id) {
      LookupIsCovered(s, id);
      assert Disciplined(s, id);
    }
    forall x | x in t.entries && t.entries[x].order.symbol == symbol && t.entries[x].order.side == Sell
             && Reportable(t, x)
      ensures NextSnapshot(t, x).filled == t.entries[x].order.filled
    {
      if x != id {
        assert t.entries[x] == s.entries[x];
      }
    }
  }

  /** While sales are settled, listing orders takes no shares of the symbol away. */
  lemma {:induction false} ListingTakesNothing(s: State, ids: seq<string>, symbol: string)
    requires Guarded(s) && Settled(s, symbol)
    ensures Held(s.account, symbol) <= Held(PollAll(s, ids).state.account, symbol)
    decreases |ids|
  {
    if ids != [] {
      PollWhileSettled(s, ids[0], symbol);
      if Poll(s, ids[0]).outcome.Ok? {
        ListingTakesNothing(Poll(s, ids[0]).state, ids[1..], symbol);
      }
    }
  }

  lemma PollShowsOrder(s: State, id: string)
    requires WellFormed(s) && id in s.entries && Poll(s, id).outcome.Ok?
    ensures
      var t := Poll(s, id).state;
      && WellFormed(t) && t.ids == s.ids && t.entries.Keys == s.entries.Keys
      && Poll(s, id).outcome.value == Some(t.entries[id].order)
      && (forall x <- s.entries :: x != id ==> t.entries[x] == s.entries[x])
  {
    PollKeepsWellFormed(s, id);
  }

  /** A listing keeps the book of orders and leaves those it does not look up alone. */
  lemma {:induction false} ListingKeepsBook(s: State, ids: seq<string>)
    requires WellFormed(s) && PollAll(s, ids).outcome.Ok?
    requires forall id <- ids :: id in s.entries
    ensures
      var t := PollAll(s, ids).state;
      && t.ids == s.ids && t.entries.Keys == s.entries.Keys && |PollAll(s, ids).outcome.value| == |ids|
      && (forall x <- s.entries :: x !in ids ==> t.entries[x] == s.entries[x])
    decreases |ids|
  {
    if ids != [] {
      assert ids[0] in ids && forall id <- ids[1..] :: id in ids;
      PollShowsOrder(s, ids[0]);
      ListingKeepsBook(Poll(s, ids[0]).state, ids[1..]);
    }
  }

  /** A listing is its first lookup followed by the listing of the rest. */
  lemma ListingUnfolds(s: State, ids: seq<string>)
    requires WellFormed(s) && ids != [] && ids[0] in s.entries && PollAll(s, ids).outcome.Ok?
    ensures Poll(s, ids[0]).outcome.Ok? && WellFormed(Poll(s, ids[0]).state)
    ensures var after := Poll(s, ids[0]).state;
            && after.entries.Keys == s.entries.Keys
            && PollAll(after, ids[1..]).outcome.Ok? && PollAll(s, ids).state == PollAll(after, ids[1..]).state
            && PollAll(s, ids).outcome.value == [after.entries[ids[0]].order] + PollAll(after, ids[1..]).outcome.value
  {
    PollShowsOrder(s, ids[0]);
  }

  lemma DistinctTail(ids: seq<string>)
    requires Distinct(ids) && ids != []
    ensures ids[0] !in ids[1..] && Distinct(ids[1..]) && forall id <- ids[1..] :: id in ids
  {}

  lemma {:induction false} ListingShowsOrder(s: State, ids: seq<string>, k: nat)
    requires WellFormed(s) && Distinct(ids) && PollAll(s, ids).outcome.Ok?
    requires (forall id <- ids :: id in s.entries) && k < |ids|
    ensures var t, listed := PollAll(s, ids).state, PollAll(s, ids).outcome.value;
            |listed| == |ids| && ids[k] in t.entries && listed[k] == t.entries[ids[k]].order
    decreases |ids|
  {
    DistinctTail(ids);
    ListingUnfolds(s, ids);
    var after, rest := Poll(s, ids[0]).state, ids[1..];
    ListingKeepsBook(after, rest);
    var shown := PollAll(after, rest).outcome.value;
    if k == 0 {
      assert PollAll(s, ids).outcome.value[0] == after.entries[ids[0]].order;
    } else {
      ListingShowsOrder(after, rest, k - 1);
      assert ids[k] == rest[k - 1] && PollAll(s, ids).outcome.value[k] == shown[k - 1];
    }
  }

  /**
   * A listing shows each order as it is stored afterwards, and leaves the orders it does
   * not look up alone.
   */
  lemma ListingShowsOrders(s: State, ids: seq<string>)
    requires WellFormed(s) && Distinct(ids)
    requires forall id <- ids :: id in s.entries
    requires PollAll(s, ids).outcome.Ok?
    ensures
      var t, listed := PollAll(s, ids).state, PollAll(s, ids).outcome.value;
      && t.ids == s.ids && t.entries.Keys == s.entries.Keys
      && |listed| == |ids|
      && (forall k :: 0 <= k < |ids| ==> listed[k] == t.entries[ids[k]].order)
      && (forall x <- s.entries :: x !in ids ==> t.entries[x] == s.entries[x])
  {
    ListingKeepsBook(s, ids);
    forall k | 0 <= k < |ids|
      ensures PollAll(s, ids).outcome.value[k] == PollAll(s, ids).state.entries[ids[k]].order
    {
      ListingShowsOrder(s, ids, k);
    }
  }

  lemma {:induction false} CommittedSplits(a: seq<Order>, b: seq<Order>, symbol: string, exclude: string)
    ensures Committed(a + b, symbol, exclude) == Committed(a, symbol, exclude) + Committed(b, symbol, exclude)
  {
    if b == [] {
      assert a + b == a;
    } else {
      assert (a + b)[..|a + b| - 1] == a + b[..|b| - 1];
      CommittedSplits(a, b[..|b| - 1], symbol, exclude);
    }
  }

  lemma CommittedFirst(o: Order, rest: seq<Order>, symbol: string, exclude: string)
    ensures Committed([o] + rest, symbol, exclude) ==
            (if o.clientOrderId == exclude then 0 else Remaining(o, symbol)) + Committed(rest, symbol, exclude)
  {
    CommittedSplits([o], rest, symbol, exclude);
    assert [o][..0] == [];
  }

  /** Exposure of all orders but one. */
  function ExposureExcept(ids: seq<string>, entries: map<string, Entry>, symbol: string, exclude: string): nat {
    if ids == [] then 0
    else
      (if ids[0] in entries && ids[0] != exclude then Remaining(entries[ids[0]].order, symbol) else 0)
      + ExposureExcept(ids[1..], entries, symbol, exclude)
  }

  lemma {:induction false} ExceptAbsent(ids: seq<string>, entries: map<string, Entry>, symbol: string, exclude: string)
    requires exclude !in ids
    ensures ExposureExcept(ids, entries, symbol, exclude) == Exposure(ids, entries, symbol)
  {
    if ids != [] {
      assert ids[0] in ids && forall id <- ids[1..] :: id in ids;
      ExceptAbsent(ids[1..], entries, symbol, exclude);
    }
  }

  lemma OpenIdsFirst(ids: seq<string>, e: map<string, Entry>)
    requires ids != [] && ids[0] in e
    ensures OpenIds(ids, e) ==
            if Closed(e[ids[0]].order.status) then OpenIds(ids[1..], e) else [ids[0]] + OpenIds(ids[1..], e)
  {}

  /** Listed orders are the stored ones of the open identifiers. */
  ghost predicate Shows(listed: seq<Order>, open: seq<string>, f: map<string, Entry>) {
    |listed| == |open| && forall k :: 0 <= k < |listed| ==> open[k] in f && listed[k] == f[open[k]].order
  }

  lemma ShowsRest(listed: seq<Order>, id: string, rest: seq<string>, f: map<string, Entry>)
    requires Shows(listed, [id] + rest, f)
    ensures id in f && listed != [] && listed[0] == f[id].order && Shows(listed[1..], rest, f)
    ensures listed == [listed[0]] + listed[1..]
  {
    var open := [id] + rest;
    assert open[0] == id;
    forall k | 0 <= k < |rest|
      ensures rest[k] in f && listed[1..][k] == f[rest[k]].order
    {
      assert open[k + 1] == rest[k];
    }
  }

  /** What the gate counts over the listed orders is the exposure of the whole book, but for the order left out. */
  lemma {:induction false} ListedExposure(
      ids: seq<string>, e: map<string, Entry>, f: map<string, Entry>, listed: seq<Order>, symbol: string, exclude: string)
    requires forall id <- ids :: id in e && id in f && f[id].order.clientOrderId == id
    requires forall id <- ids :: Closed(e[id].order.status) ==> f[id] == e[id]
    requires Shows(listed, OpenIds(ids, e), f)
    ensures Committed(listed, symbol, exclude) == ExposureExcept(ids, f, symbol, exclude)
  {
    if ids != [] {
      assert ids[0] in ids && forall id <- ids[1..] :: id in ids;
      OpenIdsFirst(ids, e);
      if Closed(e[ids[0]].order.status) {
        ListedExposure(ids[1..], e, f, listed, symbol, exclude);
      } else {
        ShowsRest(listed, ids[0], OpenIds(ids[1..], e), f);
        ListedExposure(ids[1..], e, f, listed[1..], symbol, exclude);
        CommittedFirst(listed[0], listed[1..], symbol, exclude);
      }
    }
  }

  lemma {:induction false} OpenIdsFacts(ids: seq<string>, e: map<string, Entry>)
    requires Distinct(ids)
    ensures Distinct(OpenIds(ids, e))
    ensures forall id :: id in OpenIds(ids, e) <==>
      id in ids && id in e && e[id].order.status !in {Filled, Cancelled, Rejected, Errored}
  {
    if ids != [] {
      OpenIdsFacts(ids[1..], e);
      assert ids[0] !in ids[1..];
      assert ids == [ids[0]] + ids[1..];
    }
  }

  /** The gate's count over a listing is the exposure the listing leaves behind, but for the order left out. */
  lemma GateCountsExposure(s: State, symbol: string, key: string)
    requires WellFormed(s) && Listed(s) && ListOpen(s).outcome.Ok?
    ensures ListOpen(s).state.ids == s.ids && ListOpen(s).state.entries.Keys == s.entries.Keys
    ensures Committed(ListOpen(s).outcome.value, symbol, key)
         == ExposureExcept(s.ids, ListOpen(s).state.entries, symbol, key)
    ensures key !in s.entries ==>
      Committed(ListOpen(s).outcome.value, symbol, key) == Exposure(s.ids, ListOpen(s).state.entries, symbol)
  {
    var open := OpenIds(s.ids, s.entries);
    OpenIdsFacts(s.ids, s.entries);
    PollAllKeepsWellFormed(s, open);
    ListingShowsOrders(s, open);
    var t, listed := ListOpen(s).state, ListOpen(s).outcome.value;
    forall id | id in s.ids
      ensures id in t.entries && t.entries[id].order.clientOrderId == id
    {
      assert Stored(t.entries[id], id);
    }
    ListedExposure(s.ids, s.entries, t.entries, listed, symbol, key);
    if key !in s.entries {
      ExceptAbsent(s.ids, t.entries, symbol, key);
    }
  }

  lemma GateKeepsGuarded(s: State, symbol: string, quantity: int, key: string)
    requires Guarded(s)
    ensures Guarded(ValidateConfirmedLong(s, symbol, quantity, key).state)
  {
    PollAllKeepsGuarded(s, OpenIds(s.ids, s.entries));
  }

  /** A new SELL that passes the gate is covered by shares no open SELL claims. */
  lemma AdmittedSaleIsCovered(s: State, symbol: string, quantity: int, key: string)
    requires Guarded(s) && Settled(s, symbol) && key !in s.entries
    requires ValidateConfirmedLong(s, symbol, quantity, key).outcome.Ok?
    ensures
      var t := ValidateConfirmedLong(s, symbol, quantity, key).state;
      && key !in t.entries
      && Exposure(t.ids, t.entries, symbol) as real + quantity as real <= Held(t.account, symbol)
  {
    GateCountsExposure(s, symbol, key);
    ListingTakesNothing(s, OpenIds(s.ids, s.entries), symbol);
  }

  /** Submitting what the gate admitted keeps every open SELL covered. */
  lemma GatedSubmitKeepsGuarded(s: State, intent: Intent)
    requires Guarded(s) && Settled(s, intent.symbol) && intent.side == Canonical(Sell)
    requires ValidateConfirmedLong(s, intent.symbol, intent.quantity, intent.idempotencyKey).outcome.Ok?
    ensures
      var t := ValidateConfirmedLong(s, intent.symbol, intent.quantity, intent.idempotencyKey).state;
      WellFormed(t) && Guarded(Submit(t, intent).state)
  {
    var key := intent.idempotencyKey;
    GateKeepsGuarded(s, intent.symbol, intent.quantity, key);
    var t := ListOpen(s).state;
    assert Exposure(t.ids, t.entries, intent.symbol) as real <= Held(t.account, intent.symbol);
    if key !in s.entries {
      AdmittedSaleIsCovered(s, intent.symbol, intent.quantity, key);
    } else {
      OpenIdsFacts(s.ids, s.entries);
      ListingShowsOrders(s, OpenIds(s.ids, s.entries));
    }
    SubmitKeepsGuarded(t, intent);
  }
}

/**
 * What listing the open orders does, told from the state before it: whether it succeeds,
 * which shares it moves, which orders it leaves, and that it leaves sales settled.
 */
module ListingEffects {
  import opened Prelude
  import opened AverageCost
  import opened BrokerModels
  import opened Broker
  import opened BrokerLedger
  import opened BrokerFills
  import opened Admission
  import opened AdmissionSafety

  /** Every script waiting for one of these orders leads to a valid snapshot. */
  ghost predicate AllReportable(s: State, ids: seq<string>) {
    forall id <- ids :: id in s.scripts ==> Reportable(s, id)
  }

  /** Shares of a symbol that the pending scripts of these orders take out of the position, purchases counting against. */
  function Outflow(s: State, ids: seq<string>, symbol: string): int {
    if ids == [] then 0
    else
      (if Reportable(s, ids[0]) && s.entries[ids[0]].order.symbol == symbol then Leaving(s, ids[0]) else 0)
      + Outflow(s, ids[1..], symbol)
  }

  /** An order as listing the open orders leaves it. */
  function AsListed(s: State, id: string): Order
    requires id in s.entries
  {
    var o := s.entries[id].order;
    if o.status !in {Filled, Cancelled, Rejected, Errored} && Reportable(s, id) then NextSnapshot(s, id) else o
  }

  /** What open sales have still to sell once waiting scripts are taken into account, one order left out. */
  function SalesAsListed(s: State, ids: seq<string>, symbol: string, exclude: string): int {
    if ids == [] then 0
    else
      (if ids[0] in s.entries && ids[0] != exclude then SaleShares(AsListed(s, ids[0]), symbol) else 0)
      + SalesAsListed(s, ids[1..], symbol, exclude)
  }

  /** Every waiting script of an order that would be listed leads to a valid snapshot. */
  ghost predicate ScriptsAreValid(s: State) {
    forall id <- s.entries ::
      s.entries[id].order.status !in {Filled, Cancelled, Rejected, Errored} && id in s.scripts ==> Reportable(s, id)
  }

  /** Shares of a symbol that the scripts waiting for orders that would be listed take out of the position on balance. */
  function PendingOutflow(s: State, ids: seq<string>, symbol: string): int {
    if ids == [] then 0
    else
      (if Reportable(s, ids[0]) && s.entries[ids[0]].order.symbol == symbol
          && s.entries[ids[0]].order.status !in {Filled, Cancelled, Rejected, Errored}
       then
         var o, n := s.entries[ids[0]].order, NextSnapshot(s, ids[0]);
         if o.side == Sell then n.filled - o.filled else o.filled - n.filled
       else 0)
      + PendingOutflow(s, ids[1..], symbol)
  }

  lemma {:induction false} OutflowOfOpen(s: State, ids: seq<string>, symbol: string)
    ensures Outflow(s, OpenIds(ids, s.entries), symbol) == PendingOutflow(s, ids, symbol)
  {
    if ids != [] {
      OutflowOfOpen(s, ids[1..], symbol);
      if ids[0] in s.entries {
        OpenIdsFirst(ids, s.entries);
        ClosedExactly(s.entries[ids[0]].order.status);
        var rest := OpenIds(ids[1..], s.entries);
        assert ([ids[0]] + rest)[1..] == rest;
      }
    }
  }

  // ----- one lookup leaves the others alone -----

  ghost predicate SameFor(s: State, t: State, ids: seq<string>) {
    forall id <- ids :: (id in s.entries <==> id in t.entries) && (id in s.scripts <==> id in t.scripts)
      && (id in s.entries ==> s.entries[id] == t.entries[id]) && (id in s.scripts ==> s.scripts[id] == t.scripts[id])
  }

  lemma PollLeavesOthers(s: State, ids: seq<string>)
    requires WellFormed(s) && Distinct(ids) && ids != []
    ensures SameFor(s, Poll(s, ids[0]).state, ids[1..])
  {
    assert ids[0] !in ids[1..];
  }

  lemma {:induction false} OutflowSame(s: State, t: State, ids: seq<string>, symbol: string)
    requires SameFor(s, t, ids)
    ensures Outflow(s, ids, symbol) == Outflow(t, ids, symbol)
  {
    if ids != [] {
      assert ids[0] in ids && forall id <- ids[1..] :: id in ids;
      OutflowSame(s, t, ids[1..], symbol);
    }
  }

  // ----- the whole listing -----

  /** A listing succeeds exactly when every waiting script is a valid one. */
  lemma {:induction false} ListingSucceedsExactly(s: State, ids: seq<string>)
    requires Guarded(s) && Distinct(ids) && forall id <- ids :: id in s.entries
    ensures PollAll(s, ids).outcome.Ok? <==> AllReportable(s, ids)
    decreases |ids|
  {
    if ids != [] {
      var t := Poll(s, ids[0]).state;
      assert ids[0] in ids && forall id <- ids[1..] :: id in ids;
      LookupSucceedsExactly(s, ids[0]);
      PollLeavesOthers(s, ids);
      AllReportableSplits(s, ids);
      AllReportableSame(s, t, ids[1..]);
      if Poll(s, ids[0]).outcome.Ok? {
        ListingSucceedsExactly(t, ids[1..]);
      }
    }
  }

  lemma LookupSucceedsExactly(s: State, id: string)
    requires Guarded(s) && id in s.entries
    ensures Guarded(Poll(s, id).state) && Poll(s, id).state.entries.Keys == s.entries.Keys
    ensures Poll(s, id).outcome.Ok? <==> (id in s.scripts ==> Reportable(s, id))
  {
    PollKeepsGuarded(s, id);
  }

  lemma AllReportableSplits(s: State, ids: seq<string>)
    requires ids != []
    ensures AllReportable(s, ids) <==> (ids[0] in s.scripts ==> Reportable(s, ids[0])) && AllReportable(s, ids[1..])
  {
    assert ids == [ids[0]] + ids[1..];
  }

  lemma AllReportableSame(s: State, t: State, ids: seq<string>)
    requires SameFor(s, t, ids)
    ensures AllReportable(s, ids) <==> AllReportable(t, ids)
  {}

  lemma PollMovesHolding(s: State, id: string, symbol: string)
    requires Guarded(s)
    ensures Held(Poll(s, id).state.account, symbol) == Held(s.account, symbol) - Outflow(s, [id], symbol) as real
  {
    if Reportable(s, id) {
      LookupIsCovered(s, id);
    }
  }

  /** A successful listing takes exactly the pending outflow out of the position. */
  lemma {:induction false} ListingMovesOutflow(s: State, ids: seq<string>, symbol: string)
    requires Guarded(s) && Distinct(ids) && PollAll(s, ids).outcome.Ok?
    ensures Held(PollAll(s, ids).state.account, symbol) == Held(s.account, symbol) - Outflow(s, ids, symbol) as real
    decreases |ids|
  {
    if ids != [] {
      var t := Poll(s, ids[0]).state;
      PollKeepsGuarded(s, ids[0]);
      PollMovesHolding(s, ids[0], symbol);
      PollLeavesOthers(s, ids);
      OutflowSame(s, t, ids[1..], symbol);
      ListingMovesOutflow(t, ids[1..], symbol);
    }
  }

  /** A listed order is stored as its script reports it; an order not listed stays. */
  lemma {:induction false} ListingStores(s: State, ids: seq<string>, id: string)
    requires WellFormed(s) && Distinct(ids) && PollAll(s, ids).outcome.Ok? && id in s.entries
    ensures var t := PollAll(s, ids).state;
            && id in t.entries && t.scripts == s.scripts
            && t.entries[id].order == (if id in ids && Reportable(s, id) then NextSnapshot(s, id) else s.entries[id].order)
    decreases |ids|
  {
    if ids != [] {
      PollKeepsWellFormed(s, ids[0]);
      assert ids[0] !in ids[1..];
      ListingStores(Poll(s, ids[0]).state, ids[1..], id);
    }
  }

  lemma {:induction false} ExposureIsSalesAsListed(s: State, t: State, ids: seq<string>, symbol: string, exclude: string)
    requires forall id <- ids :: id in s.entries && id in t.entries && t.entries[id].order == AsListed(s, id)
    requires forall id <- t.entries :: CheckedOrder(t.entries[id].order).Ok?
    ensures ExposureExcept(ids, t.entries, symbol, exclude) == SalesAsListed(s, ids, symbol, exclude)
  {
    if ids != [] {
      assert ids[0] in ids && forall id <- ids[1..] :: id in ids;
      RemainingIsSaleShares(t.entries[ids[0]].order, symbol);
      ExposureIsSalesAsListed(s, t, ids[1..], symbol, exclude);
    }
  }

  lemma ListOpenStores(s: State, id: string)
    requires Guarded(s) && ListOpen(s).outcome.Ok? && id in s.entries
    ensures var t := ListOpen(s).state;
            id in t.entries && t.entries[id].order == AsListed(s, id) && t.scripts == s.scripts
  {
    OpenIdsFacts(s.ids, s.entries);
    ListingStores(s, OpenIds(s.ids, s.entries), id);
  }

  lemma ListOpenSucceedsExactly(s: State)
    requires Guarded(s)
    ensures ListOpen(s).outcome.Ok? <==> ScriptsAreValid(s)
  {
    OpenIdsFacts(s.ids, s.entries);
    ListingSucceedsExactly(s, OpenIds(s.ids, s.entries));
  }

  /**
   * What listing the open orders does, told from the state before it: it succeeds exactly when
   * the waiting scripts are valid; it moves a position by what they report; and the gate's
   * count over it is what open sales will have to sell.
   */
  lemma ListOpenEffect(s: State, symbol: string, exclude: string)
    requires Guarded(s)
    ensures ListOpen(s).outcome.Ok? <==> ScriptsAreValid(s)
    ensures ListOpen(s).outcome.Ok? ==>
      var t := ListOpen(s).state;
      && t.ids == s.ids
      && Held(t.account, symbol) == Held(s.account, symbol) - PendingOutflow(s, s.ids, symbol) as real
      && Committed(ListOpen(s).outcome.value, symbol, exclude) == SalesAsListed(s, s.ids, symbol, exclude)
      && (exclude !in s.entries ==> SalesOf(t.ids, t.entries, symbol) == SalesAsListed(s, s.ids, symbol, exclude))
  {
    ListOpenSucceedsExactly(s);
    if ListOpen(s).outcome.Ok? {
      ListOpenMoves(s, symbol);
      ListOpenCounts(s, symbol, exclude);
    }
  }

  lemma ListOpenMoves(s: State, symbol: string)
    requires Guarded(s) && ListOpen(s).outcome.Ok?
    ensures Held(ListOpen(s).state.account, symbol)
         == Held(s.account, symbol) - PendingOutflow(s, s.ids, symbol) as real
  {
    OpenIdsFacts(s.ids, s.entries);
    ListingMovesOutflow(s, OpenIds(s.ids, s.entries), symbol);
    OutflowOfOpen(s, s.ids, symbol);
  }

  lemma ListOpenCounts(s: State, symbol: string, exclude: string)
    requires Guarded(s) && ListOpen(s).outcome.Ok?
    ensures var t := ListOpen(s).state;
            && t.ids == s.ids
            && Committed(ListOpen(s).outcome.value, symbol, exclude) == SalesAsListed(s, s.ids, symbol, exclude)
            && (exclude !in s.entries ==> SalesOf(t.ids, t.entries, symbol) == SalesAsListed(s, s.ids, symbol, exclude))
  {
    var t := ListOpen(s).state;
    GateCountsExposure(s, symbol, exclude);
    PollAllKeepsGuarded(s, OpenIds(s.ids, s.entries));
    forall id <- s.ids
      ensures id in t.entries && t.entries[id].order == AsListed(s, id)
    {
      ListOpenStores(s, id);
    }
    assert forall id <- t.entries :: Stored(t.entries[id], id);
    ExposureIsSalesAsListed(s, t, s.ids, symbol, exclude);
    ExposureIsSales(s.ids, t.entries, symbol);
  }

  // ----- the caller's remedy -----

  /** Once stored as reported, a script has nothing further to report. */
  lemma AppliedScriptIsSettled(s: State, t: State, id: string)
    requires Guarded(s) && id in s.entries && id in t.entries && t.scripts == s.scripts
    requires t.entries[id].order == AsListed(s, id) && Reportable(t, id)
    ensures NextSnapshot(t, id).filled == t.entries[id].order.filled
  {
    if Reportable(s, id) {
      assert Disciplined(s, id);
    }
  }

  /** Listing the open orders, if it succeeds, settles the sales of every symbol. */
  lemma ListingSettles(s: State, symbol: string)
    requires Guarded(s) && ListOpen(s).outcome.Ok?
    ensures Guarded(ListOpen(s).state) && Settled(ListOpen(s).state, symbol)
  {
    var t := ListOpen(s).state;
    OpenIdsFacts(s.ids, s.entries);
    PollAllKeepsGuarded(s, OpenIds(s.ids, s.entries));
    ListingShowsOrders(s, OpenIds(s.ids, s.entries));
    forall id <- t.entries | Reportable(t, id)
      ensures NextSnapshot(t, id).filled == t.entries[id].order.filled
    {
      ListOpenStores(s, id);
      AppliedScriptIsSettled(s, t, id);
    }
  }
}

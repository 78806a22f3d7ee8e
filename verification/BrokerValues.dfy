/**
 * What the recorded fills of an order are worth. Each new block of shares is booked at the
 * order's cumulative average price, so the records and the snapshot part whenever that
 * average moves after shares have been filled.
 */
module BrokerValues {
  import opened Prelude
  import opened AverageCost
  import opened BrokerModels
  import opened Broker
  import opened BrokerFills
  import opened BrokerRefusals

  /** What `n` shares are worth at a price, added up share by share; `WorthIsProduct` gives the product. */
  function Worth(n: nat, price: real): real {
    if n == 0 then 0.0 else Worth(n - 1, price) + price
  }

  lemma {:induction false} WorthIsProduct(n: nat, price: real)
    ensures Worth(n, price) == n as real * price
  {
    if n > 0 {
      WorthIsProduct(n - 1, price);
      assert n as real * price == (n - 1) as real * price + price;
    }
  }

  lemma {:induction false} WorthOfSum(m: nat, n: nat, price: real)
    ensures Worth(m + n, price) == Worth(m, price) + Worth(n, price)
  {
    if n > 0 {
      WorthOfSum(m, n - 1, price);
    }
  }

  lemma {:induction false} WorthTellsPrices(n: nat, p: real, q: real)
    ensures p < q && n > 0 ==> Worth(n, p) < Worth(n, q)
    ensures Worth(n, p) == Worth(n, q) <==> n == 0 || p == q
  {
    if n > 1 {
      WorthTellsPrices(n - 1, p, q);
      WorthTellsPrices(n - 1, q, p);
    }
  }

  function RecordedValue(journal: seq<Fill>, id: string): real {
    if journal == [] then 0.0
    else
      var fill := journal[|journal| - 1];
      RecordedValue(journal[..|journal| - 1], id)
      + if fill.clientOrderId == id then Worth(fill.quantity, fill.price) else 0.0
  }

  function AverageOf(o: Order): real {
    if o.averagePrice.Some? then o.averagePrice.value else 0.0
  }

  /** Filled shares at the average price, as the snapshot shows them. */
  function ShownValue(o: Order): real {
    if o.filled >= 0 then Worth(o.filled, AverageOf(o)) else 0.0
  }

  /** The shares an order has filled, at another price. */
  function ValueAt(o: Order, price: real): real {
    if o.filled >= 0 then Worth(o.filled, price) else 0.0
  }

  function ShownValueOf(s: State, id: string): real {
    if id in s.entries then ShownValue(s.entries[id].order) else 0.0
  }

  /** By how much the snapshot of an order exceeds the value of its records. */
  function Gap(s: State, id: string): real {
    ShownValueOf(s, id) - RecordedValue(s.account.journal, id)
  }

  /**
   * What a lookup adds to the gap: the shares filled before, at the change of the average;
   * after a refusal, all that the snapshot gained.
   */
  ghost function Drift(s: State, id: string): real
    requires WellFormed(s)
  {
    if !Reportable(s, id) then 0.0
    else
      var o, n := s.entries[id].order, NextSnapshot(s, id);
      if Refused(s, id) > 0 then ShownValue(n) - ShownValue(o)
      else ValueAt(o, AverageOf(n)) - ShownValue(o)
  }

  ghost function DriftInAll(s: State, ids: seq<string>, id: string): real
    requires WellFormed(s)
    decreases |ids|
  {
    if ids == [] then 0.0
    else
      PollKeepsWellFormed(s, ids[0]);
      (if ids[0] == id then Drift(s, id) else 0.0)
      + if Poll(s, ids[0]).outcome.Ok? then DriftInAll(Poll(s, ids[0]).state, ids[1..], id) else 0.0
  }

  /** The drift of one order over a whole run. */
  ghost function DriftInRun(s: State, ops: seq<Op>, id: string): real
    requires WellFormed(s)
    decreases |ops|
  {
    if ops == [] then 0.0
    else DriftInAll(s, Lookups(s, ops[0]), id) + DriftInRun(Step(s, ops[0]), ops[1..], id)
  }

  // ----- one lookup -----

  lemma RecordedValueExtended(journal: seq<Fill>, fill: Fill, id: string)
    ensures RecordedValue(journal + [fill], id) ==
            RecordedValue(journal, id) + if fill.clientOrderId == id then Worth(fill.quantity, fill.price) else 0.0
  {
    assert (journal + [fill])[..|journal|] == journal;
  }

  lemma BookedBlock(a: Account, order: Order, side: SideText, delta: nat)
    requires a.Positive() && delta > 0 && order.filled > 0 && order.averagePrice.Some?
    ensures var p := Book(a, order, side, delta);
            if p.error.Some? then p.account.journal == a.journal
            else exists fill :: p.account.journal == a.journal + [fill] && fill.clientOrderId == order.clientOrderId
                   && fill.quantity == delta && fill.price == order.averagePrice.value
  {}

  /** What a lookup records for any order. */
  lemma LookupRecordsValue(s: State, looked: string, id: string)
    requires WellFormed(s) && AllMonotone(s) && Reportable(s, looked)
    ensures NextSnapshot(s, looked).filled >= s.entries[looked].order.filled >= 0
    ensures var o, n := s.entries[looked].order, NextSnapshot(s, looked);
            RecordedValue(Booking(s, looked).account.journal, id) ==
            RecordedValue(s.account.journal, id)
            + if id == looked && Refused(s, looked) == 0 then Worth(n.filled - o.filled, AverageOf(n)) else 0.0
  {
    assert Monotone(s, looked, s.scripts[looked]) && Stored(s.entries[looked], looked);
    var n := NextSnapshot(s, looked);
    var delta := n.filled - s.entries[looked].order.filled;
    if delta > 0 {
      BookedBlock(s.account, n, s.entries[looked].side, delta);
      if Booking(s, looked).error.None? {
        var journal, after := s.account.journal, Booking(s, looked).account.journal;
        var fill := after[|journal|];
        assert after == journal + [fill];
        RecordedValueExtended(journal, fill, id);
      }
    }
  }

  lemma ShownAfterLookup(s: State, looked: string, id: string)
    requires WellFormed(s)
    ensures ShownValueOf(Poll(s, looked).state, id) ==
            if looked == id && Reportable(s, id) then ShownValue(NextSnapshot(s, id)) else ShownValueOf(s, id)
    ensures Poll(s, looked).state.account.journal ==
            if Reportable(s, looked) then Booking(s, looked).account.journal else s.account.journal
  {}

  lemma BookedGap(s: State, id: string)
    requires WellFormed(s) && AllMonotone(s) && Reportable(s, id) && Smooth(s, id)
    ensures var o, n := s.entries[id].order, NextSnapshot(s, id);
            Gap(Poll(s, id).state, id) == Gap(s, id) + (ValueAt(o, AverageOf(n)) - ShownValue(o))
  {
    ShownAfterLookup(s, id, id);
    LookupRecordsValue(s, id, id);
    var o, n := s.entries[id].order, NextSnapshot(s, id);
    WorthOfSum(o.filled, n.filled - o.filled, AverageOf(n));
  }

  lemma RefusedGap(s: State, id: string)
    requires WellFormed(s) && AllMonotone(s) && Reportable(s, id) && !Smooth(s, id)
    ensures Gap(Poll(s, id).state, id) ==
            Gap(s, id) + (ShownValue(NextSnapshot(s, id)) - ShownValue(s.entries[id].order))
  {
    ShownAfterLookup(s, id, id);
    LookupRecordsValue(s, id, id);
  }

  lemma OtherGap(s: State, looked: string, id: string)
    requires WellFormed(s) && AllMonotone(s) && (looked != id || !Reportable(s, looked))
    ensures Gap(Poll(s, looked).state, id) == Gap(s, id)
  {
    ShownAfterLookup(s, looked, id);
    if Reportable(s, looked) {
      LookupRecordsValue(s, looked, id);
    }
  }

  lemma LookupGap(s: State, looked: string, id: string)
    requires WellFormed(s) && AllMonotone(s)
    ensures WellFormed(Poll(s, looked).state) && AllMonotone(Poll(s, looked).state)
    ensures Gap(Poll(s, looked).state, id) == Gap(s, id) + if looked == id then Drift(s, id) else 0.0
  {
    PollKeepsWellFormed(s, looked);
    PollKeepsMonotone(s, looked);
    if looked != id || !Reportable(s, looked) {
      OtherGap(s, looked, id);
    } else if Refused(s, id) > 0 {
      RefusedGap(s, id);
    } else {
      BookedGap(s, id);
    }
  }

  /**
   * The exact condition on successive averages: a lookup that is not refused keeps an order's
   * records worth what its snapshot shows if and only if nothing was filled before, or the
   * average stays.
   */
  lemma LookupKeepsValueExactly(s: State, id: string)
    requires WellFormed(s) && AllMonotone(s) && Reportable(s, id) && Smooth(s, id) && Gap(s, id) == 0.0
    ensures Gap(Poll(s, id).state, id) == 0.0 <==>
      s.entries[id].order.filled == 0 || AverageOf(NextSnapshot(s, id)) == AverageOf(s.entries[id].order)
  {
    BookedGap(s, id);
    var o, n := s.entries[id].order, NextSnapshot(s, id);
    assert Stored(s.entries[id], id);
    WorthTellsPrices(o.filled, AverageOf(n), AverageOf(o));
  }

  // ----- whole runs -----

  lemma {:induction false} ListingGap(s: State, ids: seq<string>, id: string)
    requires WellFormed(s) && AllMonotone(s)
    ensures WellFormed(PollAll(s, ids).state)
    ensures Gap(PollAll(s, ids).state, id) == Gap(s, id) + DriftInAll(s, ids, id)
    decreases |ids|
  {
    if ids != [] {
      LookupGap(s, ids[0], id);
      if Poll(s, ids[0]).outcome.Ok? {
        ListingGap(Poll(s, ids[0]).state, ids[1..], id);
      }
    }
  }

  lemma StepIsListing(s: State, op: Op)
    requires WellFormed(s) && !op.SubmitOp? && !op.ScriptOp? && !op.CancelOp?
    ensures Step(s, op) == PollAll(s, Lookups(s, op)).state
  {
    if op.PollOp? || op.ListFillsOp? {
      assert [op.id][1..] == [];
      PollKeepsWellFormed(s, op.id);
    }
  }

  /** No other operation fills or prices an order. */
  lemma OtherOpsFillNothing(s: State, op: Op, id: string)
    requires WellFormed(s) && (op.SubmitOp? || op.ScriptOp? || op.CancelOp?)
    ensures Step(s, op).account == s.account
    ensures id in s.entries ==>
      var o, n := s.entries[id].order, Step(s, op).entries[id].order;
      id in Step(s, op).entries && n.filled == o.filled && n.averagePrice == o.averagePrice
    ensures id !in s.entries && id in Step(s, op).entries ==> Step(s, op).entries[id].order.filled == 0
  {}

  lemma OtherOpsGap(s: State, op: Op, id: string)
    requires WellFormed(s) && (op.SubmitOp? || op.ScriptOp? || op.CancelOp?)
    ensures Gap(Step(s, op), id) == Gap(s, id)
  {
    OtherOpsFillNothing(s, op, id);
  }

  lemma {:induction false} RunGap(s: State, ops: seq<Op>, id: string)
    requires WellFormed(s) && AllMonotone(s) && MonotoneRun(s, ops)
    ensures Gap(Run(s, ops), id) == Gap(s, id) + DriftInRun(s, ops, id)
    decreases |ops|
  {
    if ops != [] {
      StepShortfall(s, ops[0], id);
      if ops[0].SubmitOp? || ops[0].ScriptOp? || ops[0].CancelOp? {
        OtherOpsGap(s, ops[0], id);
      } else {
        StepIsListing(s, ops[0]);
        ListingGap(s, Lookups(s, ops[0]), id);
      }
      RunGap(Step(s, ops[0]), ops[1..], id);
    }
  }

  /**
   * Over every run with monotone scripts an order's snapshot value is that of its records
   * plus the drift, so the two agree exactly when the drift of its lookups adds up to nothing.
   */
  lemma ShownValueIsRecordedPlusDrift(startingCash: real, ops: seq<Op>, id: string)
    requires MonotoneRun(Opened(startingCash), ops)
    ensures
      var s, drift := Run(Opened(startingCash), ops), DriftInRun(Opened(startingCash), ops, id);
      && ShownValueOf(s, id) == RecordedValue(s.account.journal, id) + drift
      && (ShownValueOf(s, id) == RecordedValue(s.account.journal, id) <==> drift == 0.0)
  {
    RunGap(Opened(startingCash), ops, id);
  }
}

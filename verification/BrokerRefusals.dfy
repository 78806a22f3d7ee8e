/**
 * What refused lookups cost. The snapshot is stored before its fill is booked, so shares
 * whose booking is refused are counted as filled and never recorded. Under monotone scripts
 * alone, the shortfall of the records is exactly what was refused.
 */
module BrokerRefusals {
  import opened Prelude
  import opened AverageCost
  import opened BrokerModels
  import opened Broker
  import opened BrokerFills

  // ----- runs that may meet refusals -----

  ghost predicate MonotoneOp(s: State, op: Op) {
    op.ScriptOp? ==> Monotone(s, op.id, op.script)
  }

  ghost predicate MonotoneRun(s: State, ops: seq<Op>)
    requires WellFormed(s)
    decreases |ops|
  {
    ops != [] ==> MonotoneOp(s, ops[0]) && MonotoneRun(Step(s, ops[0]), ops[1..])
  }

  /** Shares of the order that a lookup reports but is refused to book. */
  ghost function Refused(s: State, id: string): (n: nat)
    requires WellFormed(s)
    ensures n > 0 <==> !Smooth(s, id)
  {
    if Reportable(s, id) && Booking(s, id).error.Some? then NextSnapshot(s, id).filled - s.entries[id].order.filled
    else 0
  }

  ghost function RefusedInAll(s: State, ids: seq<string>, id: string): nat
    requires WellFormed(s)
    decreases |ids|
  {
    if ids == [] then 0
    else
      PollKeepsWellFormed(s, ids[0]);
      (if ids[0] == id then Refused(s, id) else 0)
      + if Poll(s, ids[0]).outcome.Ok? then RefusedInAll(Poll(s, ids[0]).state, ids[1..], id) else 0
  }

  ghost function RefusedIn(s: State, op: Op, id: string): nat
    requires WellFormed(s)
  {
    match op
    case PollOp(looked) => RefusedInAll(s, [looked], id)
    case ListFillsOp(looked) => RefusedInAll(s, [looked], id)
    case PollMany(ids) => RefusedInAll(s, ids, id)
    case ListOpenOp => RefusedInAll(s, OpenIds(s.ids, s.entries), id)
    case _ => 0
  }

  /** Shares of one order refused over a whole run. */
  ghost function RefusedInRun(s: State, ops: seq<Op>, id: string): nat
    requires WellFormed(s)
    decreases |ops|
  {
    if ops == [] then 0 else RefusedIn(s, ops[0], id) + RefusedInRun(Step(s, ops[0]), ops[1..], id)
  }

  // ----- the shortfall of the records -----

  function FilledOf(s: State, id: string): int {
    if id in s.entries then s.entries[id].order.filled else 0
  }

  /** Shares the order shows as filled beyond those recorded for it. */
  function Shortfall(s: State, id: string): int {
    FilledOf(s, id) - FilledBy(s.account.journal, id)
  }

  lemma RefusalRecordsNothing(a: Account, order: Order, side: SideText, delta: nat)
    requires a.Positive() && delta > 0 && order.filled > 0 && order.averagePrice.Some?
    requires Book(a, order, side, delta).error.Some?
    ensures Book(a, order, side, delta).account.journal == a.journal
  {}

  lemma BookingRecords(s: State, id: string)
    requires WellFormed(s) && AllMonotone(s) && Reportable(s, id)
    ensures forall x ::
      FilledBy(Booking(s, id).account.journal, x) ==
      FilledBy(s.account.journal, x)
      + if x == id then NextSnapshot(s, id).filled - s.entries[id].order.filled - Refused(s, id) else 0
  {
    assert Monotone(s, id, s.scripts[id]) && Stored(s.entries[id], id);
    var n := NextSnapshot(s, id);
    var delta := n.filled - s.entries[id].order.filled;
    if delta > 0 {
      if Booking(s, id).error.Some? {
        RefusalRecordsNothing(s.account, n, s.entries[id].side, delta);
      } else {
        BookRecordsOneFill(s.account, n, s.entries[id].side, delta);
        var journal, after := s.account.journal, Booking(s, id).account.journal;
        assert after == journal + [after[|journal|]];
        FilledByExtended(journal, after[|journal|]);
      }
    }
  }

  lemma LookupShortfall(s: State, looked: string, id: string)
    requires WellFormed(s) && AllMonotone(s)
    ensures WellFormed(Poll(s, looked).state) && AllMonotone(Poll(s, looked).state)
    ensures Shortfall(Poll(s, looked).state, id) == Shortfall(s, id) + if looked == id then Refused(s, id) else 0
  {
    PollKeepsWellFormed(s, looked);
    PollKeepsMonotone(s, looked);
    if Reportable(s, looked) {
      BookingRecords(s, looked);
    }
  }

  lemma {:induction false} ListingShortfall(s: State, ids: seq<string>, id: string)
    requires WellFormed(s) && AllMonotone(s)
    ensures WellFormed(PollAll(s, ids).state) && AllMonotone(PollAll(s, ids).state)
    ensures Shortfall(PollAll(s, ids).state, id) == Shortfall(s, id) + RefusedInAll(s, ids, id)
    decreases |ids|
  {
    if ids != [] {
      LookupShortfall(s, ids[0], id);
      if Poll(s, ids[0]).outcome.Ok? {
        ListingShortfall(Poll(s, ids[0]).state, ids[1..], id);
      }
    }
  }

  lemma OneLookup(s: State, looked: string, id: string)
    requires WellFormed(s)
    ensures RefusedInAll(s, [looked], id) == if looked == id then Refused(s, id) else 0
  {
    assert [looked][1..] == [];
    PollKeepsWellFormed(s, looked);
  }

  lemma OtherOpsShortfall(s: State, op: Op, id: string)
    requires WellFormed(s) && AllMonotone(s) && MonotoneOp(s, op)
    requires op.SubmitOp? || op.ScriptOp? || op.CancelOp?
    ensures AllMonotone(Step(s, op)) && Shortfall(Step(s, op), id) == Shortfall(s, id)
  {
    match op
    case SubmitOp(intent) => SubmitKeepsMonotone(s, intent);
    case CancelOp(cancelled) => CancelKeepsMonotone(s, cancelled);
    case ScriptOp(scripted, script) =>
      forall x <- Step(s, op).scripts
        ensures Monotone(Step(s, op), x, Step(s, op).scripts[x])
      {
        if x != scripted {
          assert Monotone(s, x, s.scripts[x]);
        }
      }
  }

  /** Every operation adds to the shortfall exactly what its lookups refuse. */
  lemma StepShortfall(s: State, op: Op, id: string)
    requires WellFormed(s) && AllMonotone(s) && MonotoneOp(s, op)
    ensures AllMonotone(Step(s, op)) && Shortfall(Step(s, op), id) == Shortfall(s, id) + RefusedIn(s, op, id)
  {
    match op
    case PollOp(looked) => LookupShortfall(s, looked, id); OneLookup(s, looked, id);
    case ListFillsOp(looked) => LookupShortfall(s, looked, id); OneLookup(s, looked, id);
    case PollMany(ids) => ListingShortfall(s, ids, id);
    case ListOpenOp => ListingShortfall(s, OpenIds(s.ids, s.entries), id);
    case _ => OtherOpsShortfall(s, op, id);
  }

  lemma {:induction false} RunShortfall(s: State, ops: seq<Op>, id: string)
    requires WellFormed(s) && AllMonotone(s) && MonotoneRun(s, ops)
    ensures Shortfall(Run(s, ops), id) == Shortfall(s, id) + RefusedInRun(s, ops, id)
    decreases |ops|
  {
    if ops != [] {
      StepShortfall(s, ops[0], id);
      RunShortfall(Step(s, ops[0]), ops[1..], id);
    }
  }

  /**
   * Over every run with monotone scripts, refusals included: an order's recorded shares and
   * the refused ones make up its filled quantity. So they agree exactly when none of its
   * lookups was refused, and a refused fill is never made good.
   */
  lemma RefusedSharesAreLost(startingCash: real, ops: seq<Op>, id: string)
    requires MonotoneRun(Opened(startingCash), ops)
    ensures
      var s, lost := Run(Opened(startingCash), ops), RefusedInRun(Opened(startingCash), ops, id);
      && FilledBy(s.account.journal, id) + lost == FilledOf(s, id)
      && (id in s.entries ==> FilledBy(s.account.journal, id) <= FilledOf(s, id) <= s.entries[id].order.quantity)
      && (FilledBy(s.account.journal, id) == FilledOf(s, id) <==> lost == 0)
  {
    RunShortfall(Opened(startingCash), ops, id);
    var s := Run(Opened(startingCash), ops);
    if id in s.entries {
      assert Stored(s.entries[id], id);
    }
  }

  lemma {:induction false} RefusalsAddUp(s: State, ops: seq<Op>, more: seq<Op>, id: string)
    requires WellFormed(s)
    ensures RefusedInRun(s, ops + more, id) == RefusedInRun(s, ops, id) + RefusedInRun(Run(s, ops), more, id)
    decreases |ops|
  {
    if ops == [] {
      assert ops + more == more;
    } else {
      assert (ops + more)[0] == ops[0] && (ops + more)[1..] == ops[1..] + more;
      RefusalsAddUp(Step(s, ops[0]), ops[1..], more, id);
    }
  }

  // ----- no refusal is what an orderly run means -----

  lemma {:induction false} SmoothListingRefusesNothing(s: State, ids: seq<string>, id: string)
    requires WellFormed(s) && AllSmooth(s, ids)
    ensures RefusedInAll(s, ids, id) == 0
    decreases |ids|
  {
    if ids != [] {
      PollKeepsWellFormed(s, ids[0]);
      if Poll(s, ids[0]).outcome.Ok? {
        SmoothListingRefusesNothing(Poll(s, ids[0]).state, ids[1..], id);
      }
    }
  }

  lemma {:induction false} UnrefusedListingIsSmooth(s: State, ids: seq<string>)
    requires WellFormed(s) && forall id :: RefusedInAll(s, ids, id) == 0
    ensures AllSmooth(s, ids)
    decreases |ids|
  {
    if ids != [] {
      PollKeepsWellFormed(s, ids[0]);
      assert RefusedInAll(s, ids, ids[0]) == 0;
      if Poll(s, ids[0]).outcome.Ok? {
        var after := Poll(s, ids[0]).state;
        forall id
          ensures RefusedInAll(after, ids[1..], id) == 0
        {
          assert RefusedInAll(s, ids, id) == 0;
        }
        UnrefusedListingIsSmooth(after, ids[1..]);
      }
    }
  }

  /** The lookups an operation makes, one after the other. */
  function Lookups(s: State, op: Op): seq<string> {
    match op
    case PollOp(looked) => [looked]
    case ListFillsOp(looked) => [looked]
    case PollMany(ids) => ids
    case ListOpenOp => OpenIds(s.ids, s.entries)
    case _ => []
  }

  lemma OrderlyLookups(s: State, op: Op)
    requires WellFormed(s)
    ensures Orderly(s, op) <==> MonotoneOp(s, op) && AllSmooth(s, Lookups(s, op))
  {
    if op.PollOp? || op.ListFillsOp? {
      assert [op.id][1..] == [];
      PollKeepsWellFormed(s, op.id);
    }
  }

  lemma OrderlyIsUnrefused(s: State, op: Op)
    requires WellFormed(s)
    ensures Orderly(s, op) <==> MonotoneOp(s, op) && forall id :: RefusedIn(s, op, id) == 0
  {
    OrderlyLookups(s, op);
    var ids := Lookups(s, op);
    forall id
      ensures RefusedIn(s, op, id) == RefusedInAll(s, ids, id)
      ensures AllSmooth(s, ids) ==> RefusedInAll(s, ids, id) == 0
    {
      if AllSmooth(s, ids) {
        SmoothListingRefusesNothing(s, ids, id);
      }
    }
    if forall id :: RefusedInAll(s, ids, id) == 0 {
      UnrefusedListingIsSmooth(s, ids);
    }
  }

  lemma {:induction false} OrderlyRunRefusesNothing(s: State, ops: seq<Op>, id: string)
    requires WellFormed(s) && OrderlyRun(s, ops)
    ensures MonotoneRun(s, ops) && RefusedInRun(s, ops, id) == 0
    decreases |ops|
  {
    if ops != [] {
      OrderlyIsUnrefused(s, ops[0]);
      OrderlyRunRefusesNothing(Step(s, ops[0]), ops[1..], id);
      assert RefusedIn(s, ops[0], id) == 0;
    }
  }

  lemma {:induction false} UnrefusedRunIsOrderly(s: State, ops: seq<Op>)
    requires WellFormed(s) && MonotoneRun(s, ops) && NothingRefused(s, ops)
    ensures OrderlyRun(s, ops)
    decreases |ops|
  {
    if ops != [] {
      forall id
        ensures RefusedIn(s, ops[0], id) == 0 && RefusedInRun(Step(s, ops[0]), ops[1..], id) == 0
      {
        assert RefusedInRun(s, ops, id) == 0;
      }
      OrderlyIsUnrefused(s, ops[0]);
      UnrefusedRunIsOrderly(Step(s, ops[0]), ops[1..]);
    }
  }

  ghost predicate NothingRefused(s: State, ops: seq<Op>)
    requires WellFormed(s)
  {
    forall id :: RefusedInRun(s, ops, id) == 0
  }

  /** A run is orderly exactly when its scripts are monotone and nothing in it is refused. */
  lemma OrderlyRunExactly(s: State, ops: seq<Op>)
    requires WellFormed(s)
    ensures OrderlyRun(s, ops) <==> MonotoneRun(s, ops) && NothingRefused(s, ops)
  {
    if OrderlyRun(s, ops) {
      OrderlyRunRefusesNothing(s, ops, "");
      forall id: string
        ensures RefusedInRun(s, ops, id) == 0
      {
        OrderlyRunRefusesNothing(s, ops, id);
      }
      assert NothingRefused(s, ops);
    }
    if MonotoneRun(s, ops) && NothingRefused(s, ops) {
      UnrefusedRunIsOrderly(s, ops);
    }
  }

  // ----- identifiers stay distinct whatever is refused -----

  /** Recorded fills carry the order's filled quantity of their time, which only grows. */
  ghost predicate Capped(s: State) {
    forall i :: 0 <= i < |s.account.journal| ==>
      var fill := s.account.journal[i];
      && fill.fillId.clientOrderId == fill.clientOrderId && fill.clientOrderId in s.entries
      && fill.fillId.filled <= s.entries[fill.clientOrderId].order.filled
  }

  ghost predicate Increasing(journal: seq<Fill>) {
    forall i, j :: 0 <= i < j < |journal| && journal[i].clientOrderId == journal[j].clientOrderId ==>
      journal[i].fillId.filled < journal[j].fillId.filled
  }

  ghost predicate Identified(s: State) {
    WellFormed(s) && AllMonotone(s) && Capped(s) && Increasing(s.account.journal)
  }

  lemma LookupRecords(s: State, id: string)
    requires WellFormed(s) && AllMonotone(s) && Reportable(s, id)
    ensures var journal, after := s.account.journal, Booking(s, id).account.journal;
            || after == journal
            || (exists fill :: after == journal + [fill] && fill.clientOrderId == id
                  && fill.fillId == FillKey(id, NextSnapshot(s, id).filled)
                  && NextSnapshot(s, id).filled > s.entries[id].order.filled)
  {
    assert Stored(s.entries[id], id);
    var n := NextSnapshot(s, id);
    var delta := n.filled - s.entries[id].order.filled;
    var journal, after := s.account.journal, Booking(s, id).account.journal;
    if delta > 0 {
      if Booking(s, id).error.Some? {
        RefusalRecordsNothing(s.account, n, s.entries[id].side, delta);
      } else {
        BookRecordsOneFill(s.account, n, s.entries[id].side, delta);
        assert after == journal + [after[|journal|]];
      }
    }
  }

  lemma LookupIdentifies(s: State, id: string)
    requires Identified(s)
    ensures Identified(Poll(s, id).state)
  {
    PollKeepsWellFormed(s, id);
    PollKeepsMonotone(s, id);
    if Reportable(s, id) {
      LookupRecords(s, id);
      assert Monotone(s, id, s.scripts[id]);
    }
  }

  lemma {:induction false} ListingIdentifies(s: State, ids: seq<string>)
    requires Identified(s)
    ensures Identified(PollAll(s, ids).state)
    decreases |ids|
  {
    if ids != [] {
      LookupIdentifies(s, ids[0]);
      if Poll(s, ids[0]).outcome.Ok? {
        ListingIdentifies(Poll(s, ids[0]).state, ids[1..]);
      }
    }
  }

  lemma OthersIdentify(s: State, op: Op)
    requires Identified(s) && MonotoneOp(s, op)
    requires op.SubmitOp? || op.ScriptOp? || op.CancelOp?
    ensures Capped(Step(s, op)) && Step(s, op).account == s.account
  {}

  lemma StepIdentifies(s: State, op: Op)
    requires Identified(s) && MonotoneOp(s, op)
    ensures Identified(Step(s, op))
  {
    match op
    case PollOp(looked) => LookupIdentifies(s, looked);
    case ListFillsOp(looked) => LookupIdentifies(s, looked);
    case PollMany(ids) => ListingIdentifies(s, ids);
    case ListOpenOp => ListingIdentifies(s, OpenIds(s.ids, s.entries));
    case _ => OtherOpsShortfall(s, op, ""); OthersIdentify(s, op);
  }

  lemma {:induction false} RunIdentifies(s: State, ops: seq<Op>)
    requires Identified(s) && MonotoneRun(s, ops)
    ensures Identified(Run(s, ops))
    decreases |ops|
  {
    if ops != [] {
      StepIdentifies(s, ops[0]);
      RunIdentifies(Step(s, ops[0]), ops[1..]);
    }
  }

  /** All fill identifiers are pairwise distinct over every run with monotone scripts, refusals included. */
  lemma IdentifiersAreAlwaysDistinct(startingCash: real, ops: seq<Op>, i: nat, j: nat)
    requires MonotoneRun(Opened(startingCash), ops)
    requires i < j < |Run(Opened(startingCash), ops).account.journal|
    ensures var journal := Run(Opened(startingCash), ops).account.journal;
            FillIdText(journal[i].fillId) != FillIdText(journal[j].fillId)
  {
    RunIdentifies(Opened(startingCash), ops);
    var journal := Run(Opened(startingCash), ops).account.journal;
    FillIdTextIsInjective(journal[i].fillId, journal[j].fillId);
  }
}

/**
 * Exactly-once booking: under monotone scripts and no refused sale, each order's recorded
 * fills add up to its filled quantity, and no two recorded fills share an identifier.
 */
module BrokerFills {
  import opened Prelude
  import opened AverageCost
  import opened BrokerModels
  import opened Broker

  /** Shares recorded for one order. */
  function FilledBy(journal: seq<Fill>, id: string): nat {
    if journal == [] then 0
    else
      var fill := journal[|journal| - 1];
      FilledBy(journal[..|journal| - 1], id) + if fill.clientOrderId == id then fill.quantity else 0
  }

  lemma FilledByExtended(journal: seq<Fill>, fill: Fill)
    ensures forall id ::
              FilledBy(journal + [fill], id) ==
              FilledBy(journal, id) + if fill.clientOrderId == id then fill.quantity else 0
  {
    assert (journal + [fill])[..|journal|] == journal;
  }

  // ----- what the run may do -----

  /** The script never reports fewer shares than the order already shows. */
  ghost predicate Monotone(s: State, id: string, script: Script) {
    id in s.entries && Reported(s.entries[id].order, script).Ok? ==>
      script.filled >= s.entries[id].order.filled
  }

  /** Looking the order up does not run into a refused position or fill. */
  ghost predicate Smooth(s: State, id: string)
    requires WellFormed(s)
  {
    Reportable(s, id) ==> Booking(s, id).error.None?
  }

  ghost predicate AllSmooth(s: State, ids: seq<string>)
    requires WellFormed(s)
    decreases |ids|
  {
    if ids == [] then true
    else
      PollKeepsWellFormed(s, ids[0]);
      Smooth(s, ids[0]) && (Poll(s, ids[0]).outcome.Ok? ==> AllSmooth(Poll(s, ids[0]).state, ids[1..]))
  }

  ghost predicate Orderly(s: State, op: Op)
    requires WellFormed(s)
  {
    match op
    case SubmitOp(_) => true
    case ScriptOp(id, script) => Monotone(s, id, script)
    case PollOp(id) => Smooth(s, id)
    case PollMany(ids) => AllSmooth(s, ids)
    case ListOpenOp => AllSmooth(s, OpenIds(s.ids, s.entries))
    case ListFillsOp(id) => Smooth(s, id)
    case CancelOp(_) => true
  }

  ghost predicate OrderlyRun(s: State, ops: seq<Op>)
    requires WellFormed(s)
    decreases |ops|
  {
    ops != [] ==> Orderly(s, ops[0]) && OrderlyRun(Step(s, ops[0]), ops[1..])
  }

  // ----- the invariant -----

  /** Fill `i` is positive, belongs to a known order and is named after the shares filled so far. */
  ghost predicate Numbered(journal: seq<Fill>, i: nat)
    requires i < |journal|
  {
    var fill := journal[i];
    fill.quantity > 0 && fill.fillId == FillKey(fill.clientOrderId, FilledBy(journal[..i + 1], fill.clientOrderId))
  }

  ghost predicate Counted(s: State) {
    && WellFormed(s)
    && FilledAsRecorded(s.entries, s.account.journal)
    && AllNumbered(s.account.journal)
    && AllMonotone(s)
  }

  ghost predicate FilledAsRecorded(entries: map<string, Entry>, journal: seq<Fill>) {
    forall id :: FilledBy(journal, id) == if id in entries then entries[id].order.filled else 0
  }

  ghost predicate AllNumbered(journal: seq<Fill>) {
    forall i :: 0 <= i < |journal| ==> Numbered(journal, i)
  }

  ghost predicate AllMonotone(s: State) {
    forall id <- s.scripts :: Monotone(s, id, s.scripts[id])
  }

  lemma BookRecordsOneFill(a: Account, order: Order, side: SideText, delta: nat)
    requires a.Positive() && delta > 0 && order.filled > 0 && order.averagePrice.Some?
    requires Book(a, order, side, delta).error.None?
    ensures
      var journal := Book(a, order, side, delta).account.journal;
      && |journal| == |a.journal| + 1 && journal[..|a.journal|] == a.journal
      && journal[|a.journal|].clientOrderId == order.clientOrderId
      && journal[|a.journal|].quantity == delta
      && journal[|a.journal|].fillId == FillKey(order.clientOrderId, order.filled)
  {}

  lemma NumberedExtended(journal: seq<Fill>, fill: Fill)
    requires AllNumbered(journal)
    requires fill.quantity > 0
    requires fill.fillId == FillKey(fill.clientOrderId, FilledBy(journal, fill.clientOrderId) + fill.quantity)
    ensures AllNumbered(journal + [fill])
  {
    var all := journal + [fill];
    FilledByExtended(journal, fill);
    forall i | 0 <= i < |all|
      ensures Numbered(all, i)
    {
      if i < |journal| {
        assert Numbered(journal, i) && all[..i + 1] == journal[..i + 1];
      } else {
        assert all[..i + 1] == all;
      }
    }
  }

  lemma BookingCounts(s: State, id: string)
    requires Counted(s) && Reportable(s, id) && Booking(s, id).error.None?
    ensures AllNumbered(Booking(s, id).account.journal)
    ensures forall x ::
              FilledBy(Booking(s, id).account.journal, x) ==
              if x == id then s.scripts[id].filled else FilledBy(s.account.journal, x)
  {
    assert Stored(s.entries[id], id) && Monotone(s, id, s.scripts[id]);
    var journal := s.account.journal;
    var delta := s.scripts[id].filled - s.entries[id].order.filled;
    if delta > 0 {
      BookRecordsOneFill(s.account, NextSnapshot(s, id), s.entries[id].side, delta);
      var after := Booking(s, id).account.journal;
      var fill := after[|journal|];
      assert after == journal + [fill];
      FilledByExtended(journal, fill);
      NumberedExtended(journal, fill);
    }
  }

  lemma PollKeepsMonotone(s: State, id: string)
    requires WellFormed(s) && AllMonotone(s)
    ensures AllMonotone(Poll(s, id).state)
  {
    var t := Poll(s, id).state;
    forall x | x in t.scripts
      ensures Monotone(t, x, t.scripts[x])
    {
      assert Monotone(s, x, s.scripts[x]);
    }
  }

  lemma PollKeepsCount(s: State, id: string)
    requires Counted(s) && Smooth(s, id)
    ensures Counted(Poll(s, id).state)
  {
    PollKeepsWellFormed(s, id);
    PollKeepsMonotone(s, id);
    if Reportable(s, id) {
      BookingCounts(s, id);
    }
  }

  lemma {:induction false} PollAllKeepsCount(s: State, ids: seq<string>)
    requires Counted(s) && AllSmooth(s, ids)
    ensures Counted(PollAll(s, ids).state)
    decreases |ids|
  {
    if ids != [] {
      PollKeepsCount(s, ids[0]);
      if Poll(s, ids[0]).outcome.Ok? {
        PollAllKeepsCount(Poll(s, ids[0]).state, ids[1..]);
      }
    }
  }

  lemma SubmitKeepsMonotone(s: State, intent: Intent)
    requires AllMonotone(s)
    ensures AllMonotone(Submit(s, intent).state)
  {
    var t := Submit(s, intent).state;
    forall x | x in t.scripts
      ensures Monotone(t, x, t.scripts[x])
    {
      assert Monotone(s, x, s.scripts[x]);
    }
  }

  lemma CancelKeepsMonotone(s: State, id: string)
    requires AllMonotone(s)
    ensures AllMonotone(Cancel(s, id).state)
  {
    var t := Cancel(s, id).state;
    forall x | x in t.scripts
      ensures Monotone(t, x, t.scripts[x])
    {
      assert Monotone(s, x, s.scripts[x]);
    }
  }

  lemma SubmitKeepsCount(s: State, intent: Intent)
    requires Counted(s)
    ensures Counted(Submit(s, intent).state)
  {
    SubmitKeepsWellFormed(s, intent);
    SubmitKeepsMonotone(s, intent);
  }

  lemma CancelKeepsCount(s: State, id: string)
    requires Counted(s)
    ensures Counted(Cancel(s, id).state)
  {
    CancelKeepsWellFormed(s, id);
    CancelKeepsMonotone(s, id);
  }

  lemma ScriptKeepsCount(s: State, id: string, script: Script)
    requires Counted(s) && Monotone(s, id, script)
    ensures Counted(ScriptFill(s, id, script))
  {
    var t := ScriptFill(s, id, script);
    forall x | x in t.scripts
      ensures Monotone(t, x, t.scripts[x])
    {
      if x != id {
        assert Monotone(s, x, s.scripts[x]);
      }
    }
  }

  lemma StepKeepsCount(s: State, op: Op)
    requires Counted(s) && Orderly(s, op)
    ensures Counted(Step(s, op))
  {
    match op
    case SubmitOp(intent) => SubmitKeepsCount(s, intent);
    case ScriptOp(id, script) => ScriptKeepsCount(s, id, script);
    case CancelOp(id) => CancelKeepsCount(s, id);
    case PollOp(id) => PollKeepsCount(s, id);
    case PollMany(ids) => PollAllKeepsCount(s, ids);
    case ListOpenOp => PollAllKeepsCount(s, OpenIds(s.ids, s.entries));
    case ListFillsOp(id) => PollKeepsCount(s, id);
  }

  lemma {:induction false} RunKeepsCount(s: State, ops: seq<Op>)
    requires Counted(s) && OrderlyRun(s, ops)
    ensures Counted(Run(s, ops))
    decreases |ops|
  {
    if ops != [] {
      StepKeepsCount(s, ops[0]);
      RunKeepsCount(Step(s, ops[0]), ops[1..]);
    }
  }

  // ----- the results -----

  lemma {:induction false} FilledByGrows(journal: seq<Fill>, m: nat, n: nat, id: string)
    requires m <= n <= |journal|
    ensures FilledBy(journal[..m], id) <= FilledBy(journal[..n], id)
    decreases n
  {
    if m < n {
      assert journal[..n][..n - 1] == journal[..n - 1];
      FilledByGrows(journal, m, n - 1, id);
    }
  }

  /** Two different records never carry the same identifier text. */
  lemma NumberedFillsAreDistinct(journal: seq<Fill>, i: nat, j: nat)
    requires i < j < |journal| && Numbered(journal, i) && Numbered(journal, j)
    ensures FillIdText(journal[i].fillId) != FillIdText(journal[j].fillId)
  {
    FillIdTextIsInjective(journal[i].fillId, journal[j].fillId);
    var id := journal[j].clientOrderId;
    FilledByGrows(journal, i + 1, j, id);
    assert journal[..j + 1][..j] == journal[..j];
  }

  /**
   * Over every orderly run from an empty gateway: each order's recorded fills sum to its
   * filled quantity, which never exceeds the ordered quantity, and all fill identifiers are
   * pairwise distinct, across orders and within one.
   */
  lemma FillsAreBookedExactlyOnce(startingCash: real, ops: seq<Op>, id: string, i: nat, j: nat)
    requires OrderlyRun(Opened(startingCash), ops)
    ensures
      var s := Run(Opened(startingCash), ops);
      && (id in s.entries ==>
            FilledBy(s.account.journal, id) == s.entries[id].order.filled <= s.entries[id].order.quantity)
      && (id !in s.entries ==> FilledBy(s.account.journal, id) == 0)
      && (i < j < |s.account.journal| ==>
            FillIdText(s.account.journal[i].fillId) != FillIdText(s.account.journal[j].fillId))
  {
    RunKeepsCount(Opened(startingCash), ops);
    var s := Run(Opened(startingCash), ops);
    if id in s.entries {
      assert Stored(s.entries[id], id);
    }
    if i < j < |s.account.journal| {
      NumberedFillsAreDistinct(s.account.journal, i, j);
    }
  }
}

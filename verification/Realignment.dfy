/**
 * The backtest result: daily samples taken before each session's fills are realigned, with
 * the broker's own fill log, into end-of-session states. Amounts are exact reals.
 */
module Realignment {
  import opened Prelude

  /** A fill as the broker booked it; dates are ordinals. */
  datatype Fill = Fill(orderId: string, ordinal: nat, buy: bool, quantity: real, price: real, fees: real, date: int)

  datatype Observation = Observation(date: int, cash: real, equity: real, quantity: real, mark: real)

  datatype DailyState = DailyState(date: int, cash: real, equity: real, unrealized: real, drawdown: real)

  datatype EndPosition = EndPosition(quantity: real, averagePrice: real)

  datatype Document = Document(
    states: seq<DailyState>, position: Option<EndPosition>, finalCash: real, finalEquity: real, maxDrawdown: real)

  datatype Failure = NotBuyOnly | Disagreement | StrayFills | NoDate

  // ----- the broker's event log -----

  datatype LogRow = LogRow(time: Option<int>, orderId: string, isFill: bool, buy: bool, quantity: real,
                           price: real, fees: real)

  function CountOf(fills: seq<Fill>, orderId: string): nat {
    if fills == [] then 0
    else CountOf(fills[..|fills| - 1], orderId) + if fills[|fills| - 1].orderId == orderId then 1 else 0
  }

  lemma CountSnoc(fills: seq<Fill>, f: Fill)
    ensures forall id :: CountOf(fills + [f], id) == CountOf(fills, id) + if f.orderId == id then 1 else 0
  {
    assert (fills + [f])[..|fills|] == fills;
  }

  /** The fills of a log, each numbered among the fills of its order. */
  function FillEvents(log: seq<LogRow>): Result<seq<Fill>, Failure> {
    if log == [] then Ok([])
    else
      var earlier :- FillEvents(log[..|log| - 1]);
      var row := log[|log| - 1];
      if !row.isFill then Ok(earlier)
      else if row.time.None? then Raised(NoDate)
      else Ok(earlier + [Fill(row.orderId, CountOf(earlier, row.orderId) + 1, row.buy, row.quantity, row.price,
                              row.fees, row.time.value)])
  }

  method AuthoritativeFillEvents(log: seq<LogRow>) returns (r: Result<seq<Fill>, Failure>)
    ensures r == FillEvents(log)
  {
    var events: seq<Fill> := [];
    var counters: map<string, nat> := map[];
    for i := 0 to |log|
      invariant FillEvents(log[..i]) == Ok(events)
      invariant forall id :: CountOf(events, id) == if id in counters then counters[id] else 0
    {
      assert log[..i + 1][..i] == log[..i];
      var row := log[i];
      if row.isFill {
        counters := counters[row.orderId := (if row.orderId in counters then counters[row.orderId] else 0) + 1];
        if row.time.None? {
          FailureIsFinal(log, i + 1);
          return Raised(NoDate);
        }
        var fill := Fill(row.orderId, counters[row.orderId], row.buy, row.quantity, row.price, row.fees, row.time.value);
        CountSnoc(events, fill);
        events := events + [fill];
      }
    }
    assert log[..|log|] == log;
    return Ok(events);
  }

  lemma {:induction false} FailureIsFinal(log: seq<LogRow>, n: nat)
    requires n <= |log| && FillEvents(log[..n]).Raised?
    ensures FillEvents(log) == FillEvents(log[..n])
    decreases |log| - n
  {
    if n < |log| {
      assert log[..n + 1][..n] == log[..n];
      FailureIsFinal(log, n + 1);
    } else {
      assert log[..n] == log;
    }
  }

  function FillRows(log: seq<LogRow>): seq<LogRow> {
    if log == [] then []
    else FillRows(log[..|log| - 1]) + if log[|log| - 1].isFill then [log[|log| - 1]] else []
  }

  /** The rows before `k` that fill the same order as row `k`. */
  function Before(rows: seq<LogRow>, k: nat): set<nat>
    requires k < |rows|
  {
    set j: nat | j < k && rows[j].orderId == rows[k].orderId
  }

  function OfOrder(rows: seq<LogRow>, id: string): set<nat> {
    set j: nat | j < |rows| && rows[j].orderId == id
  }

  lemma OfOrderSnoc(rows: seq<LogRow>, row: LogRow, id: string)
    ensures OfOrder(rows + [row], id) == if row.orderId == id then OfOrder(rows, id) + {|rows|} else OfOrder(rows, id)
  {}

  lemma BeforeIsOfOrder(rows: seq<LogRow>, k: nat)
    requires k < |rows|
    ensures Before(rows, k) == OfOrder(rows[..k], rows[k].orderId)
  {}

  /** A fill event carries the fields of its row and its number among those of its order. */
  ghost predicate IsEventOf(f: Fill, rows: seq<LogRow>, k: nat)
    requires k < |rows|
  {
    && f.orderId == rows[k].orderId && f.buy == rows[k].buy && f.quantity == rows[k].quantity
    && f.price == rows[k].price && f.fees == rows[k].fees && Some(f.date) == rows[k].time
    && f.ordinal == 1 + |Before(rows, k)|
  }

  /** The events so far are those of the rows so far. */
  ghost predicate AreEventsOf(fills: seq<Fill>, rows: seq<LogRow>) {
    && |fills| == |rows|
    && (forall k :: 0 <= k < |rows| ==> IsEventOf(fills[k], rows, k))
    && forall id: string :: CountOf(fills, id) == |OfOrder(rows, id)|
  }

  lemma EventOfMore(f: Fill, rows: seq<LogRow>, row: LogRow, k: nat)
    requires k < |rows| && IsEventOf(f, rows, k)
    ensures IsEventOf(f, rows + [row], k)
  {
    assert Before(rows + [row], k) == Before(rows, k);
  }

  lemma CountOfMore(fills: seq<Fill>, rows: seq<LogRow>, f: Fill, row: LogRow, id: string)
    requires CountOf(fills, id) == |OfOrder(rows, id)| && f.orderId == row.orderId
    ensures CountOf(fills + [f], id) == |OfOrder(rows + [row], id)|
  {
    CountSnoc(fills, f);
    OfOrderSnoc(rows, row, id);
  }

  lemma EventsOfMore(fills: seq<Fill>, rows: seq<LogRow>, f: Fill, row: LogRow)
    requires AreEventsOf(fills, rows) && IsEventOf(f, rows + [row], |rows|)
    ensures AreEventsOf(fills + [f], rows + [row])
  {
    forall k | 0 <= k < |rows|
      ensures IsEventOf((fills + [f])[k], rows + [row], k)
    {
      EventOfMore(fills[k], rows, row, k);
    }
    forall id: string
      ensures CountOf(fills + [f], id) == |OfOrder(rows + [row], id)|
    {
      CountOfMore(fills, rows, f, row, id);
    }
  }

  lemma {:induction false} EventsFollowRows(log: seq<LogRow>)
    requires FillEvents(log).Ok?
    ensures AreEventsOf(FillEvents(log).value, FillRows(log))
  {
    if log == [] {
      assert forall id :: OfOrder([], id) == {};
    } else {
      var row := log[|log| - 1];
      EventsFollowRows(log[..|log| - 1]);
      var earlier, rows := FillEvents(log[..|log| - 1]).value, FillRows(log[..|log| - 1]);
      if row.isFill {
        BeforeIsOfOrder(rows + [row], |rows|);
        assert (rows + [row])[..|rows|] == rows;
        EventsOfMore(earlier, rows, FillEvents(log).value[|earlier|], row);
      } else {
        assert rows + [] == rows;
      }
    }
  }

  /** A log is refused exactly when one of its fills has no time. */
  lemma {:induction false} EventsNeedTimes(log: seq<LogRow>)
    ensures FillEvents(log).Ok? <==> forall i :: 0 <= i < |log| && log[i].isFill ==> log[i].time.Some?
    ensures FillEvents(log).Raised? ==> FillEvents(log).error == NoDate
  {
    if log != [] {
      var init := log[..|log| - 1];
      EventsNeedTimes(init);
      assert forall i :: 0 <= i < |init| ==> init[i] == log[i];
    }
  }

  /**
   * The fill events are the fill rows of the log in order, field by field, each numbered from
   * one among those of its order.
   */
  lemma EventsAreFillRows(log: seq<LogRow>, k: nat)
    requires FillEvents(log).Ok? && k < |FillRows(log)|
    ensures |FillEvents(log).value| == |FillRows(log)|
    ensures
      var f, row := FillEvents(log).value[k], FillRows(log)[k];
      && f.orderId == row.orderId && f.buy == row.buy && f.quantity == row.quantity
      && f.price == row.price && f.fees == row.fees && Some(f.date) == row.time
      && f.ordinal == 1 + |Before(FillRows(log), k)|
  {
    EventsFollowRows(log);
    assert IsEventOf(FillEvents(log).value[k], FillRows(log), k);
  }

  /** No two fills of a log share both their order and their number within it. */
  lemma {:induction false} FillNumbersAreDistinct(log: seq<LogRow>, i: nat, j: nat)
    requires FillEvents(log).Ok? && i < j < |FillEvents(log).value|
    ensures
      var fills := FillEvents(log).value;
      fills[i].orderId != fills[j].orderId || fills[i].ordinal < fills[j].ordinal
  {
    var earlier := FillEvents(log[..|log| - 1]).value;
    if j < |earlier| {
      FillNumbersAreDistinct(log[..|log| - 1], i, j);
    } else {
      OrdinalsAreCounted(log[..|log| - 1], i);
    }
  }

  lemma {:induction false} OrdinalsAreCounted(log: seq<LogRow>, i: nat)
    requires FillEvents(log).Ok? && i < |FillEvents(log).value|
    ensures FillEvents(log).value[i].ordinal <= CountOf(FillEvents(log).value, FillEvents(log).value[i].orderId)
  {
    var earlier := FillEvents(log[..|log| - 1]).value;
    var fills := FillEvents(log).value;
    if fills != earlier {
      assert fills[..|earlier|] == earlier;
    }
    if i < |earlier| {
      OrdinalsAreCounted(log[..|log| - 1], i);
    }
  }

  // ----- totals of fills -----

  datatype Totals = Totals(cost: real, fees: real, shares: real)

  const NOTHING := Totals(0.0, 0.0, 0.0)

  function Added(t: Totals, f: Fill): Totals {
    Totals(t.cost + f.quantity * f.price, t.fees + f.fees, t.shares + f.quantity)
  }

  function Plus(a: Totals, b: Totals): Totals {
    Totals(a.cost + b.cost, a.fees + b.fees, a.shares + b.shares)
  }

  function Sum(fills: seq<Fill>): Totals {
    if fills == [] then NOTHING else Added(Sum(fills[..|fills| - 1]), fills[|fills| - 1])
  }

  /** Totals of the fills booked on the given sessions. */
  function SumOn(fills: seq<Fill>, dates: set<int>): Totals {
    if fills == [] then NOTHING
    else
      var before := SumOn(fills[..|fills| - 1], dates);
      if fills[|fills| - 1].date in dates then Added(before, fills[|fills| - 1]) else before
  }

  function OfDate(fills: seq<Fill>, date: int): seq<Fill> {
    if fills == [] then []
    else
      var before := OfDate(fills[..|fills| - 1], date);
      if fills[|fills| - 1].date == date then before + [fills[|fills| - 1]] else before
  }

  lemma {:induction false} SumOnOneMoreDate(fills: seq<Fill>, dates: set<int>, date: int)
    requires date !in dates
    ensures SumOn(fills, dates + {date}) == Plus(SumOn(fills, dates), Sum(OfDate(fills, date)))
  {
    if fills != [] {
      var n := |fills| - 1;
      SumOnOneMoreDate(fills[..n], dates, date);
      var before := OfDate(fills[..n], date);
      if fills[n].date == date {
        assert (before + [fills[n]])[..|before|] == before;
      }
    }
  }

  lemma {:induction false} SumOnCongruent(fills: seq<Fill>, a: set<int>, b: set<int>)
    requires forall i :: 0 <= i < |fills| ==> (fills[i].date in a <==> fills[i].date in b)
    ensures SumOn(fills, a) == SumOn(fills, b)
  {
    if fills != [] {
      SumOnCongruent(fills[..|fills| - 1], a, b);
    }
  }

  lemma {:induction false} SumOnEverything(fills: seq<Fill>, dates: set<int>)
    requires forall i :: 0 <= i < |fills| ==> fills[i].date in dates
    ensures SumOn(fills, dates) == Sum(fills)
  {
    if fills != [] {
      SumOnEverything(fills[..|fills| - 1], dates);
    }
  }

  // ----- what the result says -----

  function Dates(observations: seq<Observation>): set<int> {
    set i | 0 <= i < |observations| :: observations[i].date
  }

  /** Totals of the fills booked on the first `n` sessions observed. */
  function TotalsAt(fills: seq<Fill>, observations: seq<Observation>, n: nat): Totals
    requires n <= |observations|
  {
    SumOn(fills, Dates(observations[..n]))
  }

  function Abs(x: real): real {
    if x < 0.0 then -x else x
  }

  /** Equal up to a millionth of the expected value, or of one when that is larger. */
  predicate Agrees(actual: real, expected: real) {
    Abs(actual - expected) <= 0.000001 * (if Abs(expected) > 1.0 then Abs(expected) else 1.0)
  }

  datatype Balances = Balances(cash: real, quantity: real, cost: real)

  function Credited(b: Balances, t: Totals): Balances {
    Balances(b.cash - (t.cost + t.fees), b.quantity + t.shares, b.cost + t.cost)
  }

  /** The balances once the fills of the first `n` observed sessions are applied to the budget. */
  function BalancesAt(budget: real, fills: seq<Fill>, observations: seq<Observation>, n: nat): Balances
    requires n <= |observations|
  {
    Credited(Balances(budget, 0.0, 0.0), TotalsAt(fills, observations, n))
  }

  /** What balances are worth at a price. */
  function Worth(b: Balances, mark: real): real {
    b.cash + b.quantity * mark
  }

  predicate Consistent(o: Observation, b: Balances) {
    Agrees(o.cash, b.cash) && Agrees(o.quantity, b.quantity) && Agrees(o.equity, o.cash + o.quantity * o.mark)
  }

  /** The sample of session `i` shows the state reconstructed up to the session before. */
  ghost predicate SampleAgrees(budget: real, fills: seq<Fill>, observations: seq<Observation>, i: nat)
    requires i < |observations|
  {
    Consistent(observations[i], BalancesAt(budget, fills, observations, i))
  }

  ghost predicate BuyOnly(fills: seq<Fill>) {
    forall i :: 0 <= i < |fills| ==> fills[i].buy
  }

  ghost predicate NoStrays(fills: seq<Fill>, observations: seq<Observation>) {
    forall i :: 0 <= i < |fills| ==> fills[i].date in Dates(observations)
  }

  ghost predicate Acceptable(budget: real, fills: seq<Fill>, observations: seq<Observation>) {
    && BuyOnly(fills) && NoStrays(fills, observations)
    && forall i :: 0 <= i < |observations| ==> SampleAgrees(budget, fills, observations, i)
  }

  function EquityAt(budget: real, fills: seq<Fill>, observations: seq<Observation>, i: nat): real
    requires i < |observations|
  {
    Worth(BalancesAt(budget, fills, observations, i + 1), observations[i].mark)
  }

  function Equities(budget: real, fills: seq<Fill>, observations: seq<Observation>): seq<real> {
    seq(|observations|, i requires 0 <= i < |observations| => EquityAt(budget, fills, observations, i))
  }

  function Max(x: real, y: real): real {
    if x < y then y else x
  }

  function Min(x: real, y: real): real {
    if y < x then y else x
  }

  /** Running peak, starting from zero. */
  function Peak(equities: seq<real>): real {
    if equities == [] then 0.0 else Max(Peak(equities[..|equities| - 1]), equities[|equities| - 1])
  }

  function Drawdown(peak: real, equity: real): real {
    if peak <= 0.0 then 0.0 else Min(0.0, (equity - peak) / peak)
  }

  function LastDrawdown(equities: seq<real>): real
    requires equities != []
  {
    Drawdown(Peak(equities), equities[|equities| - 1])
  }

  function MaxDrawdown(equities: seq<real>): real {
    if equities == [] then 0.0 else Min(MaxDrawdown(equities[..|equities| - 1]), LastDrawdown(equities))
  }

  /** One day of the series, from the balances and the running peak. */
  function DayOf(o: Observation, b: Balances, peak: real): DailyState {
    DailyState(o.date, b.cash, Worth(b, o.mark), b.quantity * o.mark - b.cost, Drawdown(peak, Worth(b, o.mark)))
  }

  function StateAt(budget: real, fills: seq<Fill>, observations: seq<Observation>, i: nat): DailyState
    requires i < |observations|
  {
    DayOf(observations[i], BalancesAt(budget, fills, observations, i + 1),
          Peak(Equities(budget, fills, observations)[..i + 1]))
  }
}

/**
 * The account as the broker books it, one purchase at a time, and the result document told
 * in its terms alone.
 */
module BookedAccount {
  import opened Prelude
  import opened Realignment
  import opened ResultDocument

  /** What the broker does with one purchase: price and fees are paid, the shares are held. */
  function Book(b: Balances, f: Fill): Balances {
    Balances(b.cash - f.quantity * f.price - f.fees, b.quantity + f.quantity, b.cost + f.quantity * f.price)
  }

  function BookAll(b: Balances, fills: seq<Fill>): Balances {
    if fills == [] then b else Book(BookAll(b, fills[..|fills| - 1]), fills[|fills| - 1])
  }

  /** The fees charged with some fills. */
  function FeesOf(fills: seq<Fill>): real {
    if fills == [] then 0.0 else FeesOf(fills[..|fills| - 1]) + fills[|fills| - 1].fees
  }

  /** Whether a session of this date is among the first `n` observed. */
  ghost predicate Observed(observations: seq<Observation>, n: nat, date: int)
    requires n <= |observations|
  {
    exists k :: 0 <= k < n && observations[k].date == date
  }

  /** The fills of the first `n` observed sessions, as logged. */
  ghost function FillsUpTo(fills: seq<Fill>, observations: seq<Observation>, n: nat): seq<Fill>
    requires n <= |observations|
  {
    if fills == [] then []
    else
      FillsUpTo(fills[..|fills| - 1], observations, n)
      + if Observed(observations, n, fills[|fills| - 1].date) then [fills[|fills| - 1]] else []
  }

  /** The account at the end of the first `n` observed sessions. */
  ghost function AccountAfter(budget: real, fills: seq<Fill>, observations: seq<Observation>, n: nat): Balances
    requires n <= |observations|
  {
    BookAll(Balances(budget, 0.0, 0.0), FillsUpTo(fills, observations, n))
  }

  // ----- the totals of the realignment are the account's -----

  lemma {:induction false} BookAllIsCredited(b: Balances, fills: seq<Fill>)
    ensures BookAll(b, fills) == Credited(b, Sum(fills))
  {
    if fills != [] {
      BookAllIsCredited(b, fills[..|fills| - 1]);
    }
  }

  lemma {:induction false} BookAllOfMore(b: Balances, fills: seq<Fill>, more: seq<Fill>)
    ensures BookAll(b, fills + more) == BookAll(BookAll(b, fills), more)
  {
    if more == [] {
      assert fills + more == fills;
    } else {
      var n := |more| - 1;
      assert (fills + more)[..|fills + more| - 1] == fills + more[..n];
      BookAllOfMore(b, fills, more[..n]);
    }
  }

  lemma ObservedAreDates(observations: seq<Observation>, n: nat, date: int)
    requires n <= |observations|
    ensures Observed(observations, n, date) <==> date in Dates(observations[..n])
  {
    if Observed(observations, n, date) {
      var k :| 0 <= k < n && observations[k].date == date;
      assert observations[..n][k].date == date;
    }
    if date in Dates(observations[..n]) {
      var k :| 0 <= k < |observations[..n]| && observations[..n][k].date == date;
      assert observations[k].date == date;
    }
  }

  lemma {:induction false} TotalsAreOfFillsUpTo(fills: seq<Fill>, observations: seq<Observation>, n: nat)
    requires n <= |observations|
    ensures TotalsAt(fills, observations, n) == Sum(FillsUpTo(fills, observations, n))
  {
    if fills != [] {
      var last := |fills| - 1;
      TotalsAreOfFillsUpTo(fills[..last], observations, n);
      ObservedAreDates(observations, n, fills[last].date);
      var before := FillsUpTo(fills[..last], observations, n);
      assert (before + [fills[last]])[..|before|] == before;
      assert before + [] == before;
    }
  }

  lemma {:induction false} EveryFillIsUpTo(fills: seq<Fill>, observations: seq<Observation>)
    requires NoStrays(fills, observations)
    ensures FillsUpTo(fills, observations, |observations|) == fills
  {
    if fills != [] {
      var last := |fills| - 1;
      EveryFillIsUpTo(fills[..last], observations);
      assert observations[..|observations|] == observations;
      ObservedAreDates(observations, |observations|, fills[last].date);
    }
  }

  /** The reconstruction is the account the broker booked. */
  lemma ReconstructionIsAccount(budget: real, fills: seq<Fill>, observations: seq<Observation>, n: nat)
    requires n <= |observations|
    ensures BalancesAt(budget, fills, observations, n) == AccountAfter(budget, fills, observations, n)
  {
    TotalsAreOfFillsUpTo(fills, observations, n);
    BookAllIsCredited(Balances(budget, 0.0, 0.0), FillsUpTo(fills, observations, n));
  }

  // ----- the document -----

  /** Within a millionth of the expected value, or of one where the expected value is smaller. */
  ghost predicate Close(actual: real, expected: real) {
    var room := if expected > 1.0 then expected else if expected < -1.0 then -expected else 1.0;
    -room <= 1000000.0 * (actual - expected) <= room
  }

  lemma AgreesWhenClose(actual: real, expected: real)
    ensures Agrees(actual, expected) <==> Close(actual, expected)
  {}

  lemma ConsistentWhenClose(o: Observation, b: Balances)
    requires Close(o.cash, b.cash) && Close(o.quantity, b.quantity) && Close(o.equity, o.cash + o.quantity * o.mark)
    ensures Consistent(o, b)
  {
    AgreesWhenClose(o.cash, b.cash);
    AgreesWhenClose(o.quantity, b.quantity);
    AgreesWhenClose(o.equity, o.cash + o.quantity * o.mark);
  }

  lemma CloseWhenConsistent(o: Observation, b: Balances)
    requires Consistent(o, b)
    ensures Close(o.cash, b.cash) && Close(o.quantity, b.quantity) && Close(o.equity, o.cash + o.quantity * o.mark)
  {
    AgreesWhenClose(o.cash, b.cash);
    AgreesWhenClose(o.quantity, b.quantity);
    AgreesWhenClose(o.equity, o.cash + o.quantity * o.mark);
  }

  lemma EquityCloseWhenConsistent(o: Observation, b: Balances, equity: real, value: real)
    requires Consistent(o, b) && equity == o.equity && value == o.cash + o.quantity * o.mark
    ensures Close(equity, value)
  {
    AgreesWhenClose(o.equity, o.cash + o.quantity * o.mark);
  }

  /**
   * A result is accepted exactly when every fill is a purchase of an observed session, and
   * every sample shows the cash and shares of the session before and an equity valued at its
   * own mark.
   */
  lemma AcceptedExactly(budget: real, fills: seq<Fill>, observations: seq<Observation>)
    ensures Acceptable(budget, fills, observations) <==>
            && (forall i :: 0 <= i < |fills| ==> fills[i].buy && Observed(observations, |observations|, fills[i].date))
            && forall i :: 0 <= i < |observations| ==>
                 var o, b := observations[i], AccountAfter(budget, fills, observations, i);
                 && Close(o.cash, b.cash) && Close(o.quantity, b.quantity)
                 && Close(o.equity, o.cash + o.quantity * o.mark)
  {
    assert observations[..|observations|] == observations;
    forall i | 0 <= i < |fills|
      ensures fills[i].date in Dates(observations) <==> Observed(observations, |observations|, fills[i].date)
    {
      ObservedAreDates(observations, |observations|, fills[i].date);
    }
    forall i | 0 <= i < |observations|
      ensures var o, b := observations[i], AccountAfter(budget, fills, observations, i);
              SampleAgrees(budget, fills, observations, i) <==>
              Close(o.cash, b.cash) && Close(o.quantity, b.quantity) && Close(o.equity, o.cash + o.quantity * o.mark)
    {
      var o, b := observations[i], AccountAfter(budget, fills, observations, i);
      ReconstructionIsAccount(budget, fills, observations, i);
      if SampleAgrees(budget, fills, observations, i) {
        CloseWhenConsistent(o, b);
      }
      if Close(o.cash, b.cash) && Close(o.quantity, b.quantity) && Close(o.equity, o.cash + o.quantity * o.mark) {
        ConsistentWhenClose(o, b);
      }
    }
  }

  lemma DayShows(day: DailyState, o: Observation, b: Balances, peak: real)
    requires day == DayOf(o, b, peak)
    ensures day.date == o.date && day.cash == b.cash
    ensures day.equity == b.cash + b.quantity * o.mark && day.unrealized == b.quantity * o.mark - b.cost
  {}

  /** Every reported day is the account at the end of that session, valued at its mark. */
  lemma DayIsAccount(budget: real, fills: seq<Fill>, observations: seq<Observation>, i: nat, day: DailyState, b: Balances)
    requires i < |observations| && day == StateAt(budget, fills, observations, i)
    requires b == AccountAfter(budget, fills, observations, i + 1)
    ensures day.date == observations[i].date && day.cash == b.cash
    ensures day.equity == b.cash + b.quantity * observations[i].mark
    ensures day.unrealized == b.quantity * observations[i].mark - b.cost
  {
    ReconstructionIsAccount(budget, fills, observations, i + 1);
    DayShows(day, observations[i], b, Peak(Equities(budget, fills, observations)[..i + 1]));
  }

  /** The document ends in the account left by all the fills, and in the equity of its last day. */
  lemma DocumentEndsInAccount(d: Document, budget: real, fills: seq<Fill>, observations: seq<Observation>, b: Balances)
    requires Documents(d, budget, fills, observations) && NoStrays(fills, observations)
    requires b == BookAll(Balances(budget, 0.0, 0.0), fills)
    ensures d.finalCash == b.cash && d.position == EndOf(b)
    ensures d.finalEquity == if observations == [] then budget
                             else StateAt(budget, fills, observations, |observations| - 1).equity
  {
    BookAllIsCredited(Balances(budget, 0.0, 0.0), fills);
  }

  /** A position is reported exactly when shares are held, at what they cost on average. */
  lemma EndShowsHolding(b: Balances)
    ensures EndOf(b).Some? <==> b.quantity > 0.0
    ensures EndOf(b).Some? ==>
              EndOf(b).value.quantity == b.quantity && EndOf(b).value.averagePrice * b.quantity == b.cost
  {}

  lemma {:induction false} AccountLessCost(budget: real, fills: seq<Fill>)
    ensures
      var b := BookAll(Balances(budget, 0.0, 0.0), fills);
      b.cash + b.cost == budget - FeesOf(fills)
  {
    if fills != [] {
      AccountLessCost(budget, fills[..|fills| - 1]);
    }
  }

  /** Equity without unrealised gains is the budget less the fees of the fills booked so far. */
  lemma EquityLessUnrealized(budget: real, fills: seq<Fill>, observations: seq<Observation>, i: nat)
    requires i < |observations|
    ensures
      var day := StateAt(budget, fills, observations, i);
      day.equity - day.unrealized == budget - FeesOf(FillsUpTo(fills, observations, i + 1))
  {
    DayIsAccount(budget, fills, observations, i, StateAt(budget, fills, observations, i),
                 AccountAfter(budget, fills, observations, i + 1));
    AccountLessCost(budget, FillsUpTo(fills, observations, i + 1));
  }
}

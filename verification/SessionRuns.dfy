/**
 * Runs of the documented session loop: in each session the strategy samples the account,
 * then the broker books that session's fills. The realigned series is the broker's own.
 */
module SessionRuns {
  import opened Prelude
  import opened Realignment
  import opened ResultDocument
  import opened BookedAccount

  /** `mark` is the price the account is valued at, `quoted` the price the strategy is given. */
  datatype Session = Session(date: int, mark: real, quoted: Option<real>, booked: seq<Fill>)

  /** Sessions have distinct dates, and their fills are purchases stamped with the session. */
  ghost predicate Documented(sessions: seq<Session>) {
    && (forall i, j :: 0 <= i < j < |sessions| ==> sessions[i].date != sessions[j].date)
    && (forall i :: 0 <= i < |sessions| ==> StampedWith(sessions[i].booked, sessions[i].date))
  }

  ghost predicate StampedWith(fills: seq<Fill>, date: int) {
    forall k :: 0 <= k < |fills| ==> fills[k].buy && fills[k].date == date
  }

  /** The broker's balances before session `i`, that is, at the end of session `i - 1`. */
  function BrokerBefore(budget: real, sessions: seq<Session>, i: nat): Balances
    requires i <= |sessions|
  {
    if i == 0 then Balances(budget, 0.0, 0.0)
    else BookAll(BrokerBefore(budget, sessions, i - 1), sessions[i - 1].booked)
  }

  function MarkPrice(s: Session): real {
    if s.quoted.Some? then s.quoted.value else 0.0
  }

  /** What the strategy samples of the account it finds. */
  function SampleOf(b: Balances, s: Session): Observation {
    Observation(s.date, b.cash, b.cash + b.quantity * s.mark, b.quantity, MarkPrice(s))
  }

  /** What the strategy samples in session `i`, before the session's fills. */
  function Sample(budget: real, sessions: seq<Session>, i: nat): Observation
    requires i < |sessions|
  {
    SampleOf(BrokerBefore(budget, sessions, i), sessions[i])
  }

  function Samples(budget: real, sessions: seq<Session>): seq<Observation> {
    seq(|sessions|, i requires 0 <= i < |sessions| => Sample(budget, sessions, i))
  }

  /** The broker's fill log of the first `n` sessions. */
  function Log(sessions: seq<Session>, n: nat): seq<Fill>
    requires n <= |sessions|
  {
    if n == 0 then [] else Log(sessions, n - 1) + sessions[n - 1].booked
  }

  // ----- the totals the realignment sees are the broker's -----

  lemma {:induction false} SumOnConcat(a: seq<Fill>, b: seq<Fill>, dates: set<int>)
    ensures SumOn(a + b, dates) == Plus(SumOn(a, dates), SumOn(b, dates))
  {
    if b == [] {
      assert a + b == a;
    } else {
      assert (a + b)[..|a + b| - 1] == a + b[..|b| - 1];
      SumOnConcat(a, b[..|b| - 1], dates);
    }
  }

  lemma {:induction false} SumOnOtherDates(fills: seq<Fill>, dates: set<int>)
    requires forall i :: 0 <= i < |fills| ==> fills[i].date !in dates
    ensures SumOn(fills, dates) == NOTHING
  {
    if fills != [] {
      SumOnOtherDates(fills[..|fills| - 1], dates);
    }
  }

  function FirstDates(sessions: seq<Session>, n: nat): set<int>
    requires n <= |sessions|
  {
    set i | 0 <= i < n :: sessions[i].date
  }

  lemma {:induction false} LogDates(sessions: seq<Session>, n: nat)
    requires Documented(sessions) && n <= |sessions|
    ensures forall k :: 0 <= k < |Log(sessions, n)| ==>
              Log(sessions, n)[k].buy && Log(sessions, n)[k].date in FirstDates(sessions, n)
  {
    if n > 0 {
      LogDates(sessions, n - 1);
      var log, last := Log(sessions, n - 1), sessions[n - 1].booked;
      assert StampedWith(last, sessions[n - 1].date) && sessions[n - 1].date in FirstDates(sessions, n);
      forall k | 0 <= k < |Log(sessions, n)|
        ensures Log(sessions, n)[k].buy && Log(sessions, n)[k].date in FirstDates(sessions, n)
      {
        if k < |log| {
          assert log[k].date in FirstDates(sessions, n - 1);
        }
      }
    }
  }

  /** Fills of later sessions do not count towards the first `n`. */
  lemma {:induction false} LaterFillsDoNotCount(sessions: seq<Session>, n: nat, m: nat)
    requires Documented(sessions) && n <= m <= |sessions|
    ensures SumOn(Log(sessions, m), FirstDates(sessions, n)) == Sum(Log(sessions, n))
    decreases m
  {
    if m == n {
      LogDates(sessions, n);
      SumOnEverything(Log(sessions, n), FirstDates(sessions, n));
    } else {
      LaterFillsDoNotCount(sessions, n, m - 1);
      SumOnConcat(Log(sessions, m - 1), sessions[m - 1].booked, FirstDates(sessions, n));
      assert StampedWith(sessions[m - 1].booked, sessions[m - 1].date);
      SumOnOtherDates(sessions[m - 1].booked, FirstDates(sessions, n));
    }
  }

  lemma {:induction false} BrokerBooksLog(budget: real, sessions: seq<Session>, n: nat)
    requires n <= |sessions|
    ensures BrokerBefore(budget, sessions, n) == BookAll(Balances(budget, 0.0, 0.0), Log(sessions, n))
  {
    if n > 0 {
      BrokerBooksLog(budget, sessions, n - 1);
      BookAllOfMore(Balances(budget, 0.0, 0.0), Log(sessions, n - 1), sessions[n - 1].booked);
    }
  }

  /** Before every session, the reconstruction is the broker's state at the session before. */
  lemma ReconstructionIsBroker(budget: real, sessions: seq<Session>, n: nat)
    requires Documented(sessions) && n <= |sessions|
    ensures BalancesAt(budget, Log(sessions, |sessions|), Samples(budget, sessions), n)
         == BrokerBefore(budget, sessions, n)
  {
    var samples := Samples(budget, sessions);
    assert Dates(samples[..n]) == FirstDates(sessions, n) by {
      forall d
        ensures d in Dates(samples[..n]) <==> d in FirstDates(sessions, n)
      {
        if d in Dates(samples[..n]) {
          var i :| 0 <= i < n && samples[..n][i].date == d;
          assert sessions[i].date == d;
        }
        if d in FirstDates(sessions, n) {
          var i :| 0 <= i < n && sessions[i].date == d;
          assert samples[..n][i].date == d;
        }
      }
    }
    LaterFillsDoNotCount(sessions, n, |sessions|);
    BrokerBooksLog(budget, sessions, n);
    BookAllIsCredited(Balances(budget, 0.0, 0.0), Log(sessions, n));
  }

  // ----- the main results -----

  /** The account is valued, up to the tolerance, at the price the strategy was given. */
  ghost predicate MarkAgrees(b: Balances, s: Session) {
    Close(b.cash + b.quantity * s.mark, b.cash + b.quantity * MarkPrice(s))
  }

  ghost predicate MarksAgree(budget: real, sessions: seq<Session>, i: nat)
    requires i < |sessions|
  {
    MarkAgrees(BrokerBefore(budget, sessions, i), sessions[i])
  }

  lemma NothingStrays(budget: real, sessions: seq<Session>)
    requires Documented(sessions)
    ensures BuyOnly(Log(sessions, |sessions|))
    ensures NoStrays(Log(sessions, |sessions|), Samples(budget, sessions))
  {
    LogDates(sessions, |sessions|);
    var samples := Samples(budget, sessions);
    forall d | d in FirstDates(sessions, |sessions|)
      ensures d in Dates(samples)
    {
      var i :| 0 <= i < |sessions| && sessions[i].date == d;
      assert samples[i].date == d;
    }
  }

  lemma CloseToItself(x: real)
    ensures Close(x, x)
  {}

  /** A sample that shows the account's cash and shares agrees when its equity is their value. */
  lemma AgreesOnValue(o: Observation, b: Balances)
    requires o.cash == b.cash && o.quantity == b.quantity
    requires Close(o.equity, o.cash + o.quantity * o.mark)
    ensures Consistent(o, b)
  {
    CloseToItself(b.cash);
    CloseToItself(b.quantity);
    ConsistentWhenClose(o, b);
  }

  /** The sample shows the account's cash and shares, and values it at the session's mark. */
  ghost predicate Shows(o: Observation, b: Balances, s: Session) {
    && o.cash == b.cash && o.quantity == b.quantity
    && o.mark == MarkPrice(s) && o.equity == b.cash + b.quantity * s.mark
  }

  lemma MarkAgreesWhenConsistent(o: Observation, b: Balances, s: Session)
    requires Shows(o, b, s) && Consistent(o, b)
    ensures MarkAgrees(b, s)
  {
    EquityCloseWhenConsistent(o, b, o.equity, b.cash + b.quantity * MarkPrice(s));
  }

  lemma ConsistentWhenMarkAgrees(o: Observation, b: Balances, s: Session)
    requires Shows(o, b, s) && MarkAgrees(b, s)
    ensures Consistent(o, b)
  {
    AgreesOnValue(o, b);
  }

  lemma SampleShows(b: Balances, s: Session)
    ensures Shows(SampleOf(b, s), b, s)
  {}

  lemma ConsistentExactly(o: Observation, b: Balances, s: Session)
    requires Shows(o, b, s)
    ensures Consistent(o, b) <==> MarkAgrees(b, s)
  {
    if Consistent(o, b) {
      MarkAgreesWhenConsistent(o, b, s);
    }
    if MarkAgrees(b, s) {
      ConsistentWhenMarkAgrees(o, b, s);
    }
  }

  lemma SampleIsConsistentExactly(o: Observation, b: Balances, s: Session)
    requires o == SampleOf(b, s)
    ensures Consistent(o, b) <==> MarkAgrees(b, s)
  {
    SampleShows(b, s);
    ConsistentExactly(o, b, s);
  }

  lemma SampleAgreesWhenMarksAgree(budget: real, sessions: seq<Session>, i: nat)
    requires Documented(sessions) && i < |sessions|
    ensures SampleAgrees(budget, Log(sessions, |sessions|), Samples(budget, sessions), i)
            <==> MarksAgree(budget, sessions, i)
  {
    ReconstructionIsBroker(budget, sessions, i);
    SampleIsConsistentExactly(Sample(budget, sessions, i), BrokerBefore(budget, sessions, i), sessions[i]);
  }

  /**
   * A run of the session loop is accepted exactly when every session's portfolio was valued
   * at the quoted price. Nothing else can reject it: the lagging cash and share samples
   * always match the reconstruction, and no fill is left over.
   */
  lemma RunIsAcceptedExactlyWhenMarksAgree(budget: real, sessions: seq<Session>)
    requires Documented(sessions)
    ensures Acceptable(budget, Log(sessions, |sessions|), Samples(budget, sessions))
            <==> forall i :: 0 <= i < |sessions| ==> MarksAgree(budget, sessions, i)
  {
    NothingStrays(budget, sessions);
    var samples, log := Samples(budget, sessions), Log(sessions, |sessions|);
    forall i | 0 <= i < |sessions|
      ensures SampleAgrees(budget, log, samples, i) <==> MarksAgree(budget, sessions, i)
    {
      SampleAgreesWhenMarksAgree(budget, sessions, i);
    }
  }

  lemma MarkAgreesWhenQuoted(b: Balances, s: Session)
    requires s.quoted == Some(s.mark) || b.quantity == 0.0
    ensures MarkAgrees(b, s)
  {
    CloseToItself(b.cash + b.quantity * s.mark);
  }

  /** In particular a run is accepted when a price was quoted whenever shares were held. */
  lemma QuotedRunIsAccepted(budget: real, sessions: seq<Session>)
    requires Documented(sessions)
    requires forall i :: 0 <= i < |sessions| ==>
               sessions[i].quoted == Some(sessions[i].mark) || BrokerBefore(budget, sessions, i).quantity == 0.0
    ensures Acceptable(budget, Log(sessions, |sessions|), Samples(budget, sessions))
  {
    forall i | 0 <= i < |sessions|
      ensures MarksAgree(budget, sessions, i)
    {
      MarkAgreesWhenQuoted(BrokerBefore(budget, sessions, i), sessions[i]);
    }
    RunIsAcceptedExactlyWhenMarksAgree(budget, sessions);
  }

  /**
   * Each reported day is the broker's true state at the end of that session, although every
   * sample was taken before the session's fills.
   */
  lemma ReportedDayIsBrokerDay(budget: real, sessions: seq<Session>, i: nat, day: DailyState, after: Balances)
    requires Documented(sessions) && i < |sessions|
    requires day == StateAt(budget, Log(sessions, |sessions|), Samples(budget, sessions), i)
    requires after == BrokerBefore(budget, sessions, i + 1)
    ensures day.date == sessions[i].date && day.cash == after.cash
    ensures day.equity == after.cash + after.quantity * MarkPrice(sessions[i])
    ensures day.unrealized == after.quantity * MarkPrice(sessions[i]) - after.cost
  {
    ReconstructionIsBroker(budget, sessions, i + 1);
    var log, samples := Log(sessions, |sessions|), Samples(budget, sessions);
    DayShows(day, samples[i], after, Peak(Equities(budget, log, samples)[..i + 1]));
  }

  /** The accepted document of a run ends in what the broker holds at the end of it. */
  lemma DocumentEndsWithBroker(d: Document, budget: real, sessions: seq<Session>, b: Balances)
    requires Documented(sessions) && sessions != []
    requires Documents(d, budget, Log(sessions, |sessions|), Samples(budget, sessions))
    requires b == BrokerBefore(budget, sessions, |sessions|)
    ensures d.finalCash == b.cash && d.position == EndOf(b)
    ensures d.finalEquity == d.states[|d.states| - 1].equity
  {
    NothingStrays(budget, sessions);
    BrokerBooksLog(budget, sessions, |sessions|);
    DocumentEndsInAccount(d, budget, Log(sessions, |sessions|), Samples(budget, sessions), b);
  }
}

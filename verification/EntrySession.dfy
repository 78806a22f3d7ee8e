/**
 * Admission of the backtest input document, and the one-shot entry of the reference strategy
 * that runs on it. Dates are ordinals.
 */
module EntrySession {
  import opened Prelude

  datatype Bar = Bar(date: int, open: real, high: real, low: real, close: real, volume: int)

  datatype Input = Input(bars: seq<Bar>, entryAfter: Option<int>)

  datatype ContractError = NoBars | BadBar | OutOfOrder | NoSessionAfterDelay

  predicate ValidBar(b: Bar) {
    && b.open > 0.0 && b.high > 0.0 && b.low > 0.0 && b.close > 0.0 && b.volume >= 0
    && b.low <= b.open <= b.high && b.low <= b.close <= b.high
  }

  /** Consecutive bars are compared, as the validator does. */
  predicate InOrder(bars: seq<Bar>) {
    forall i :: 1 <= i < |bars| ==> bars[i - 1].date < bars[i].date
  }

  /** Dates of the given sessions that lie strictly after the delay. */
  function After(bars: seq<Bar>, delay: int): seq<int> {
    if bars == [] then []
    else (if bars[0].date > delay then [bars[0].date] else []) + After(bars[1..], delay)
  }

  /** The first bar is never a trading iteration, so the delay is checked on the others. */
  function ParseInput(bars: seq<Bar>, entryAfter: Option<int>): Result<Input, ContractError> {
    if bars == [] then Raised(NoBars)
    else if exists b <- bars :: !ValidBar(b) then Raised(BadBar)
    else if !InOrder(bars) then Raised(OutOfOrder)
    else if entryAfter.Some? && After(bars[1..], entryAfter.value) == [] then Raised(NoSessionAfterDelay)
    else Ok(Input(bars, entryAfter))
  }

  lemma {:induction false} OrderIsTransitive(bars: seq<Bar>, i: nat, j: nat)
    requires InOrder(bars) && i < j < |bars|
    ensures bars[i].date < bars[j].date
    decreases j
  {
    if i + 1 < j {
      OrderIsTransitive(bars, i, j - 1);
    }
  }

  lemma {:induction false} AfterIsEmptyWhen(bars: seq<Bar>, delay: int)
    ensures After(bars, delay) == [] <==> forall i :: 0 <= i < |bars| ==> bars[i].date <= delay
  {
    if bars != [] {
      AfterIsEmptyWhen(bars[1..], delay);
      if forall i :: 0 <= i < |bars| ==> bars[i].date <= delay {
        assert forall i :: 0 <= i < |bars[1..]| ==> bars[1..][i] == bars[i + 1];
      }
      if After(bars, delay) == [] {
        forall i | 0 <= i < |bars|
          ensures bars[i].date <= delay
        {
          if i > 0 {
            assert bars[1..][i - 1] == bars[i];
          }
        }
      }
    }
  }

  /** A delay is accepted exactly when there is a second bar and the last one follows the delay. */
  lemma DelayIsAcceptedExactlyWhenFeasible(bars: seq<Bar>, delay: int)
    requires (forall b <- bars :: ValidBar(b)) && InOrder(bars)
    ensures ParseInput(bars, Some(delay)).Ok? <==> |bars| >= 2 && bars[|bars| - 1].date > delay
  {
    if bars != [] {
      AfterIsEmptyWhen(bars[1..], delay);
      if |bars| >= 2 {
        var last := |bars| - 1;
        assert bars[1..][last - 1] == bars[last];
        forall i | 0 <= i < |bars[1..]|
          ensures bars[1..][i].date <= bars[last].date
        {
          if i + 1 < last {
            OrderIsTransitive(bars, i + 1, last);
          }
        }
      }
    }
  }

  lemma ValidBarsAre(bars: seq<Bar>)
    ensures (forall b <- bars :: ValidBar(b)) <==>
            forall b <- bars ::
              && b.open > 0.0 && b.high > 0.0 && b.low > 0.0 && b.close > 0.0 && b.volume >= 0
              && b.low <= b.open && b.open <= b.high && b.low <= b.close && b.close <= b.high
  {}

  /** Which bars and delay are accepted: valid bars in strictly increasing order of date, and a delay that leaves a session. */
  lemma BarsAreAcceptedExactly(bars: seq<Bar>, entryAfter: Option<int>)
    ensures ParseInput(bars, entryAfter).Ok? <==>
      && bars != []
      && (forall b <- bars ::
            && b.open > 0.0 && b.high > 0.0 && b.low > 0.0 && b.close > 0.0 && b.volume >= 0
            && b.low <= b.open && b.open <= b.high && b.low <= b.close && b.close <= b.high)
      && (forall i, j :: 0 <= i < j < |bars| ==> bars[i].date < bars[j].date)
      && (entryAfter.Some? ==> |bars| >= 2 && bars[|bars| - 1].date > entryAfter.value)
    ensures ParseInput(bars, entryAfter).Ok? ==> ParseInput(bars, entryAfter).value == Input(bars, entryAfter)
  {
    ValidBarsAre(bars);
    if InOrder(bars) {
      forall i, j | 0 <= i < j < |bars|
        ensures bars[i].date < bars[j].date
      {
        OrderIsTransitive(bars, i, j);
      }
      if entryAfter.Some? && forall b <- bars :: ValidBar(b) {
        DelayIsAcceptedExactlyWhenFeasible(bars, entryAfter.value);
      }
    }
  }

  // ----- the whole document -----

  const INPUT_SCHEMA := "backtest_runtime.input.v2"
  const REFERENCE_STRATEGY := "backtest_runtime.reference_strategy.v2"

  datatype Strategy = Strategy(id: string, symbol: string, quantity: int, budget: real, entryAfter: Option<int>)

  datatype InputDocument = InputDocument(schemaVersion: string, strategy: Strategy, bars: seq<Bar>)

  datatype DocumentError = BadSchema | BadStrategy | BadBars(cause: ContractError)

  predicate IsBlank(s: string) {
    forall c <- s :: c in {' ', '\t', '\n', '\r', '\U{000B}', '\U{000C}'}
  }

  predicate ValidStrategy(s: Strategy) {
    s.id == REFERENCE_STRATEGY && !IsBlank(s.symbol) && s.quantity > 0 && s.budget > 0.0
  }

  /** The schema version is checked first, then the strategy, then the bars with the delay. */
  function ParseInputDocument(d: InputDocument): Result<InputDocument, DocumentError> {
    if d.schemaVersion != INPUT_SCHEMA then Raised(BadSchema)
    else if !ValidStrategy(d.strategy) then Raised(BadStrategy)
    else
      match ParseInput(d.bars, d.strategy.entryAfter)
      case Raised(cause) => Raised(BadBars(cause))
      case Ok(_) => Ok(d)
  }

  /**
   * A document is accepted, as it is, if and only if it is of the input schema, its strategy
   * is the reference one with a symbol, a positive quantity and a positive budget, its bars
   * are valid and strictly increasing in date over every pair, and a delay leaves a session.
   */
  lemma DocumentIsAcceptedExactly(d: InputDocument)
    ensures ParseInputDocument(d) == Ok(d) <==>
      && d.schemaVersion == "backtest_runtime.input.v2"
      && d.strategy.id == "backtest_runtime.reference_strategy.v2"
      && (exists c <- d.strategy.symbol :: !(c == ' ' || '\t' <= c <= '\r'))
      && d.strategy.quantity > 0 && d.strategy.budget > 0.0
      && d.bars != []
      && (forall b <- d.bars ::
            && b.open > 0.0 && b.high > 0.0 && b.low > 0.0 && b.close > 0.0 && b.volume >= 0
            && b.low <= b.open && b.open <= b.high && b.low <= b.close && b.close <= b.high)
      && (forall i, j :: 0 <= i < j < |d.bars| ==> d.bars[i].date < d.bars[j].date)
      && (d.strategy.entryAfter.Some? ==>
            |d.bars| >= 2 && d.bars[|d.bars| - 1].date > d.strategy.entryAfter.value)
    ensures ParseInputDocument(d).Ok? ==> ParseInputDocument(d) == Ok(d)
  {
    BarsAreAcceptedExactly(d.bars, d.strategy.entryAfter);
  }

  // ----- the strategy -----

  /** A trading iteration: its session and the price the strategy gets, if any. */
  datatype Iteration = Iteration(date: int, price: Option<real>)

  /** The conditions, apart from not having submitted yet, under which the buy is submitted. */
  predicate Eligible(it: Iteration, entryAfter: Option<int>) {
    && (entryAfter.None? || it.date > entryAfter.value)
    && it.price.Some? && it.price.value != 0.0
  }

  function Entries(its: seq<Iteration>, entryAfter: Option<int>): seq<int> {
    if its == [] then []
    else
      var before := Entries(its[..|its| - 1], entryAfter);
      if before == [] && Eligible(its[|its| - 1], entryAfter) then [its[|its| - 1].date] else before
  }

  class ReferenceStrategy {
    const entryAfter: Option<int>
    var submitted: bool
    var orderDates: seq<int>

    constructor (entryAfter: Option<int>)
      ensures this.entryAfter == entryAfter && !submitted && orderDates == []
    {
      this.entryAfter := entryAfter;
      submitted, orderDates := false, [];
    }

    /** Submits the single buy on the first iteration that allows it. */
    method OnTradingIteration(it: Iteration)
      requires submitted <==> orderDates != []
      modifies this
      ensures submitted <==> orderDates != []
      ensures orderDates == if old(orderDates) == [] && Eligible(it, entryAfter) then [it.date] else old(orderDates)
    {
      var entryAllowed := entryAfter.None? || it.date > entryAfter.value;
      if !submitted && entryAllowed && it.price.Some? && it.price.value != 0.0 {
        orderDates := orderDates + [it.date];
        submitted := true;
      }
    }

    method Run(its: seq<Iteration>)
      requires !submitted && orderDates == []
      modifies this
      ensures orderDates == Entries(its, entryAfter)
    {
      for i := 0 to |its|
        invariant submitted <==> orderDates != []
        invariant orderDates == Entries(its[..i], entryAfter)
      {
        assert its[..i + 1][..i] == its[..i];
        OnTradingIteration(its[i]);
      }
      assert its[..|its|] == its;
    }
  }

  /** The session lies after the delay, if there is one, and a price other than zero is quoted. */
  ghost predicate Allows(it: Iteration, entryAfter: Option<int>) {
    (entryAfter.Some? ==> it.date > entryAfter.value) && it.price.Some? && it.price != Some(0.0)
  }

  /** At most one order is ever submitted, and exactly on the first session that allows it. */
  lemma {:induction false} EntriesAreFirstEligible(its: seq<Iteration>, entryAfter: Option<int>, k: nat)
    requires k < |its| && Allows(its[k], entryAfter)
    requires forall i :: 0 <= i < k ==> !Allows(its[i], entryAfter)
    ensures Entries(its, entryAfter) == [its[k].date]
  {
    if k == |its| - 1 {
      NoEligibleNoEntry(its[..k], entryAfter);
    } else {
      EntriesAreFirstEligible(its[..|its| - 1], entryAfter, k);
    }
  }

  /** Nothing is submitted when no session allows it. */
  lemma {:induction false} NoEligibleNoEntry(its: seq<Iteration>, entryAfter: Option<int>)
    requires forall i :: 0 <= i < |its| ==> !Allows(its[i], entryAfter)
    ensures Entries(its, entryAfter) == []
  {
    if its != [] {
      NoEligibleNoEntry(its[..|its| - 1], entryAfter);
    }
  }

  /** The iterations of a run over a document: every bar but the first, each with its price. */
  function IterationsOf(bars: seq<Bar>, prices: seq<real>): seq<Iteration>
    requires |bars| == |prices| + 1
  {
    seq(|prices|, i requires 0 <= i < |prices| => Iteration(bars[i + 1].date, Some(prices[i])))
  }

  ghost predicate AlwaysPriced(prices: seq<real>) {
    forall i :: 0 <= i < |prices| ==> prices[i] != 0.0
  }

  /** Whether `bars[k]` is the first iterated session strictly after the delay. */
  ghost predicate FirstAllowed(input: Input, k: nat) {
    && 1 <= k < |input.bars|
    && (input.entryAfter.Some? ==>
          && input.bars[k].date > input.entryAfter.value
          && forall i :: 1 <= i < k ==> input.bars[i].date <= input.entryAfter.value)
    && (input.entryAfter.None? ==> k == 1)
  }

  lemma {:induction false} FirstAfter(bars: seq<Bar>, delay: int, n: nat) returns (k: nat)
    requires 1 <= n < |bars| && bars[n].date > delay
    ensures 1 <= k <= n && bars[k].date > delay
    ensures forall i :: 1 <= i < k ==> bars[i].date <= delay
  {
    if exists i :: 1 <= i < n && bars[i].date > delay {
      var i :| 1 <= i < n && bars[i].date > delay;
      k := FirstAfter(bars, delay, i);
    } else {
      k := n;
    }
  }

  lemma EntryOnFirstAllowed(input: Input, prices: seq<real>, k: nat)
    requires |input.bars| == |prices| + 1 && AlwaysPriced(prices) && FirstAllowed(input, k)
    ensures Entries(IterationsOf(input.bars, prices), input.entryAfter) == [input.bars[k].date]
  {
    EntriesAreFirstEligible(IterationsOf(input.bars, prices), input.entryAfter, k - 1);
  }

  /**
   * A run over an accepted document, with a price each session, submits exactly one order,
   * on the first session strictly after the delay; only a document without a delay may have
   * a single bar, and then nothing is submitted.
   */
  lemma AcceptedDocumentEntersOnce(bars: seq<Bar>, entryAfter: Option<int>, prices: seq<real>)
    requires ParseInput(bars, entryAfter).Ok?
    requires |bars| == |prices| + 1 && AlwaysPriced(prices)
    ensures
      var entries := Entries(IterationsOf(bars, prices), entryAfter);
      && (|bars| >= 2 <==> exists k: nat :: FirstAllowed(Input(bars, entryAfter), k) && entries == [bars[k].date])
      && (|bars| < 2 <==> entries == [])
      && (entryAfter.Some? ==> |bars| >= 2)
  {
    var input := Input(bars, entryAfter);
    if entryAfter.Some? {
      DelayIsAcceptedExactlyWhenFeasible(bars, entryAfter.value);
      var k := FirstAfter(bars, entryAfter.value, |bars| - 1);
      EntryOnFirstAllowed(input, prices, k);
    } else if |bars| >= 2 {
      EntryOnFirstAllowed(input, prices, 1);
    }
  }
}

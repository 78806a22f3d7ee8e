/** Building the result document: the loop over sessions, proved against the realignment. */
module ResultDocument {
  import opened Prelude
  import opened Realignment

  lemma DatesOneMore(observations: seq<Observation>, i: nat)
    requires i < |observations|
    ensures Dates(observations[..i + 1]) == Dates(observations[..i]) + {observations[i].date}
  {
    var a, b := observations[..i], observations[..i + 1];
    forall d
      ensures d in Dates(b) <==> d in Dates(a) + {observations[i].date}
    {
      if d in Dates(a) {
        var k :| 0 <= k < |a| && a[k].date == d;
        assert b[k].date == d;
      }
      if d in Dates(b) {
        var k :| 0 <= k < |b| && b[k].date == d;
        if k < i {
          assert a[k].date == d;
        }
      }
      assert b[i].date in Dates(b);
    }
  }

  /** A session's fills are added the first time the session is observed, and only then. */
  lemma TotalsOneMore(fills: seq<Fill>, observations: seq<Observation>, i: nat)
    requires i < |observations|
    ensures
      var before, date := Dates(observations[..i]), observations[i].date;
      TotalsAt(fills, observations, i + 1) ==
      if date in before then TotalsAt(fills, observations, i)
      else Plus(TotalsAt(fills, observations, i), Sum(OfDate(fills, date)))
  {
    DatesOneMore(observations, i);
    var before, date := Dates(observations[..i]), observations[i].date;
    if date in before {
      assert before + {date} == before;
    } else {
      SumOnOneMoreDate(fills, before, date);
    }
  }

  lemma OfDateSnoc(fills: seq<Fill>, k: nat, date: int)
    requires k < |fills|
    ensures OfDate(fills[..k + 1], date) ==
            if fills[k].date == date then OfDate(fills[..k], date) + [fills[k]] else OfDate(fills[..k], date)
  {
    assert fills[..k + 1][..k] == fills[..k];
  }

  lemma {:induction false} NoFillsOnDate(fills: seq<Fill>, date: int)
    ensures OfDate(fills, date) == [] <==> forall i :: 0 <= i < |fills| ==> fills[i].date != date
  {
    if fills != [] {
      NoFillsOnDate(fills[..|fills| - 1], date);
    }
  }

  /** Groups the fills by the session the broker stamped them with. */
  method GroupBySession(fills: seq<Fill>) returns (groups: map<int, seq<Fill>>)
    ensures forall d :: d in groups <==> OfDate(fills, d) != []
    ensures forall d <- groups :: groups[d] == OfDate(fills, d)
  {
    groups := map[];
    for k := 0 to |fills|
      invariant forall d :: d in groups <==> OfDate(fills[..k], d) != []
      invariant forall d <- groups :: groups[d] == OfDate(fills[..k], d)
    {
      forall d
        ensures OfDate(fills[..k + 1], d) ==
                if fills[k].date == d then OfDate(fills[..k], d) + [fills[k]] else OfDate(fills[..k], d)
      {
        OfDateSnoc(fills, k, d);
      }
      var d := fills[k].date;
      groups := groups[d := (if d in groups then groups[d] else []) + [fills[k]]];
    }
    assert fills[..|fills|] == fills;
  }

  /** Applies a session's fills to the running balances. */
  method ApplyFills(fills: seq<Fill>, before: Balances) returns (after: Balances)
    ensures after == Credited(before, Sum(fills))
  {
    var cash, quantity, cost := before.cash, before.quantity, before.cost;
    for k := 0 to |fills|
      invariant Balances(cash, quantity, cost) == Credited(before, Sum(fills[..k]))
    {
      assert fills[..k + 1][..k] == fills[..k];
      cash := cash - (fills[k].quantity * fills[k].price + fills[k].fees);
      quantity := quantity + fills[k].quantity;
      cost := cost + fills[k].quantity * fills[k].price;
    }
    assert fills[..|fills|] == fills;
    after := Balances(cash, quantity, cost);
  }

  lemma BalancesAdvance(budget: real, fills: seq<Fill>, observations: seq<Observation>, i: nat)
    requires i < |observations|
    ensures
      var date := observations[i].date;
      BalancesAt(budget, fills, observations, i + 1) ==
      Credited(BalancesAt(budget, fills, observations, i),
               if date in Dates(observations[..i]) then NOTHING else Sum(OfDate(fills, date)))
  {
    TotalsOneMore(fills, observations, i);
  }

  lemma HighsAdvance(equities: seq<real>, i: nat)
    requires i < |equities|
    ensures Peak(equities[..i + 1]) == Max(Peak(equities[..i]), equities[i])
    ensures MaxDrawdown(equities[..i + 1])
         == Min(MaxDrawdown(equities[..i]), Drawdown(Peak(equities[..i + 1]), equities[i]))
  {
    assert equities[..i + 1][..i] == equities[..i];
  }

  /** Fills of sessions not observed yet, by session. */
  ghost predicate StillPending(pending: map<int, seq<Fill>>, fills: seq<Fill>, seen: set<int>) {
    && (forall d :: d in pending <==> d !in seen && OfDate(fills, d) != [])
    && (forall d <- pending :: pending[d] == OfDate(fills, d))
  }

  /** What the session loop leaves behind. */
  datatype Walk = Walk(balances: Balances, maxDrawdown: real, states: seq<DailyState>, pending: map<int, seq<Fill>>)

  ghost predicate WalkedTo(w: Walk, budget: real, fills: seq<Fill>, observations: seq<Observation>, n: nat)
    requires n <= |observations|
  {
    && w.balances == BalancesAt(budget, fills, observations, n)
    && w.maxDrawdown == MaxDrawdown(Equities(budget, fills, observations)[..n])
    && |w.states| == n
    && (forall j :: 0 <= j < n ==> w.states[j] == StateAt(budget, fills, observations, j))
    && StillPending(w.pending, fills, Dates(observations[..n]))
  }

  lemma PendingAdvances(pending: map<int, seq<Fill>>, fills: seq<Fill>, observations: seq<Observation>, i: nat)
    requires i < |observations| && StillPending(pending, fills, Dates(observations[..i]))
    ensures StillPending(pending - {observations[i].date}, fills, Dates(observations[..i + 1]))
  {
    DatesOneMore(observations, i);
  }

  /** One session: its pending fills are taken out and applied, and its day is appended. */
  method WalkSession(ghost budget: real, ghost fills: seq<Fill>, ghost observations: seq<Observation>, ghost i: nat,
                     before: Walk, peak: real, o: Observation)
    returns (after: Walk, newPeak: real)
    requires i < |observations| && o == observations[i]
    requires WalkedTo(before, budget, fills, observations, i)
    requires peak == Peak(Equities(budget, fills, observations)[..i])
    ensures WalkedTo(after, budget, fills, observations, i + 1)
    ensures newPeak == Peak(Equities(budget, fills, observations)[..i + 1])
  {
    BalancesAdvance(budget, fills, observations, i);
    PendingAdvances(before.pending, fills, observations, i);
    HighsAdvance(Equities(budget, fills, observations), i);
    var balances := before.balances;
    if o.date in before.pending {
      balances := ApplyFills(before.pending[o.date], balances);
    }
    assert balances == BalancesAt(budget, fills, observations, i + 1);
    var equity := Worth(balances, o.mark);
    newPeak := Max(peak, equity);
    after := Walk(balances, Min(before.maxDrawdown, Drawdown(newPeak, equity)),
                  before.states + [DayOf(o, balances, newPeak)], before.pending - {o.date});
  }

  ghost predicate SamplesAgree(budget: real, fills: seq<Fill>, observations: seq<Observation>, n: nat)
    requires n <= |observations|
  {
    forall j :: 0 <= j < n ==> SampleAgrees(budget, fills, observations, j)
  }

  lemma NothingWalked(budget: real, fills: seq<Fill>, observations: seq<Observation>, pending: map<int, seq<Fill>>)
    requires StillPending(pending, fills, {})
    ensures WalkedTo(Walk(Balances(budget, 0.0, 0.0), 0.0, [], pending), budget, fills, observations, 0)
    ensures Peak(Equities(budget, fills, observations)[..0]) == 0.0
  {
    SumOnNoDates(fills);
    assert Dates(observations[..0]) == {};
  }

  /** The loop over sessions; it stops at a sample that disagrees with the reconstruction. */
  method WalkSessions(budget: real, ghost fills: seq<Fill>, observations: seq<Observation>, pending: map<int, seq<Fill>>)
    returns (w: Option<Walk>)
    requires StillPending(pending, fills, {})
    ensures w.Some? <==> SamplesAgree(budget, fills, observations, |observations|)
    ensures w.Some? ==> WalkedTo(w.value, budget, fills, observations, |observations|)
  {
    var walk, peak := Walk(Balances(budget, 0.0, 0.0), 0.0, [], pending), 0.0;
    NothingWalked(budget, fills, observations, pending);
    for i := 0 to |observations|
      invariant WalkedTo(walk, budget, fills, observations, i)
      invariant peak == Peak(Equities(budget, fills, observations)[..i])
      invariant SamplesAgree(budget, fills, observations, i)
    {
      if !Consistent(observations[i], walk.balances) {
        assert !SampleAgrees(budget, fills, observations, i);
        return None;
      }
      walk, peak := WalkSession(budget, fills, observations, i, walk, peak, observations[i]);
    }
    return Some(walk);
  }

  method AreAllPurchases(fills: seq<Fill>) returns (yes: bool)
    ensures yes <==> BuyOnly(fills)
  {
    for k := 0 to |fills|
      invariant BuyOnly(fills[..k])
    {
      if !fills[k].buy {
        return false;
      }
    }
    return true;
  }

  lemma LeftOverMeansStrays(pending: map<int, seq<Fill>>, fills: seq<Fill>, observations: seq<Observation>)
    requires StillPending(pending, fills, Dates(observations))
    ensures pending == map[] <==> NoStrays(fills, observations)
  {
    StraysAreThoseLeft(fills, observations);
    if forall d :: d !in Dates(observations) ==> OfDate(fills, d) == [] {
      forall d
        ensures d !in pending
      {
        assert d !in Dates(observations) ==> OfDate(fills, d) == [];
      }
      assert pending == map[];
    }
  }

  method NormalizeResult(budget: real, fills: seq<Fill>, observations: seq<Observation>)
    returns (r: Result<Document, Failure>)
    ensures r.Ok? <==> Acceptable(budget, fills, observations)
    ensures r == Raised(NotBuyOnly) <==> !BuyOnly(fills)
    ensures r == Raised(StrayFills) <==>
            && BuyOnly(fills) && SamplesAgree(budget, fills, observations, |observations|)
            && !NoStrays(fills, observations)
    ensures r.Raised? ==> r.error in {NotBuyOnly, Disagreement, StrayFills}
    ensures r.Ok? ==> Documents(r.value, budget, fills, observations)
  {
    var purchases := AreAllPurchases(fills);
    if !purchases {
      return Raised(NotBuyOnly);
    }
    var pending := GroupBySession(fills);
    var walk := WalkSessions(budget, fills, observations, pending);
    if walk.None? {
      return Raised(Disagreement);
    }
    assert observations[..|observations|] == observations;
    LeftOverMeansStrays(walk.value.pending, fills, observations);
    if walk.value.pending != map[] {
      return Raised(StrayFills);
    }
    WalkEndsInDocument(walk.value, budget, fills, observations);
    return Ok(DocumentOf(walk.value, budget));
  }

  function DocumentOf(w: Walk, budget: real): Document {
    Document(w.states, EndOf(w.balances), w.balances.cash,
             if w.states == [] then budget else w.states[|w.states| - 1].equity, w.maxDrawdown)
  }

  /** The document carries the true end-of-session series and every fill exactly once. */
  ghost predicate Documents(d: Document, budget: real, fills: seq<Fill>, observations: seq<Observation>) {
    var equities := Equities(budget, fills, observations);
    && |d.states| == |observations|
    && (forall i :: 0 <= i < |observations| ==> d.states[i] == StateAt(budget, fills, observations, i))
    && d.maxDrawdown == MaxDrawdown(equities)
    && d.finalCash == budget - (Sum(fills).cost + Sum(fills).fees)
    && d.finalEquity == (if equities == [] then budget else equities[|equities| - 1])
    && d.position == EndOf(Credited(Balances(budget, 0.0, 0.0), Sum(fills)))
  }

  lemma WalkEndsInDocument(w: Walk, budget: real, fills: seq<Fill>, observations: seq<Observation>)
    requires WalkedTo(w, budget, fills, observations, |observations|) && NoStrays(fills, observations)
    ensures Documents(DocumentOf(w, budget), budget, fills, observations)
  {
    assert observations[..|observations|] == observations;
    var equities := Equities(budget, fills, observations);
    assert equities[..|equities|] == equities;
    SumOnEverything(fills, Dates(observations));
  }

  function EndOf(b: Balances): Option<EndPosition> {
    if b.quantity > 0.0 then Some(EndPosition(b.quantity, b.cost / b.quantity)) else None
  }

  lemma {:induction false} SumOnNoDates(fills: seq<Fill>)
    ensures SumOn(fills, {}) == NOTHING
  {
    if fills != [] {
      SumOnNoDates(fills[..|fills| - 1]);
    }
  }

  lemma StraysAreThoseLeft(fills: seq<Fill>, observations: seq<Observation>)
    ensures NoStrays(fills, observations) <==> forall d :: d !in Dates(observations) ==> OfDate(fills, d) == []
  {
    forall d
      ensures OfDate(fills, d) == [] <==> forall i :: 0 <= i < |fills| ==> fills[i].date != d
    {
      NoFillsOnDate(fills, d);
    }
    if forall d :: d !in Dates(observations) ==> OfDate(fills, d) == [] {
      forall i | 0 <= i < |fills|
        ensures fills[i].date in Dates(observations)
      {
        var d := fills[i].date;
        assert OfDate(fills, d) != [];
      }
    }
  }
}

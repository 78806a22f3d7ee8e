/** The backtest's end position is the one the paper gateway would hold after the same purchases. */
module AccountingAgreement {
  import opened Prelude
  import AverageCost
  import opened Realignment
  import ResultDocument

  /** A booked purchase as the gateway would see it. */
  function TradeOf(f: Fill, symbol: string): AverageCost.Trade {
    AverageCost.Trade(symbol, AverageCost.Buy, f.quantity, f.price)
  }

  function TradesOf(fills: seq<Fill>, symbol: string): (ts: seq<AverageCost.Trade>)
    ensures |ts| == |fills| && forall i :: 0 <= i < |fills| ==> ts[i] == TradeOf(fills[i], symbol)
  {
    seq(|fills|, i requires 0 <= i < |fills| => TradeOf(fills[i], symbol))
  }

  ghost predicate AreOrdinary(fills: seq<Fill>) {
    forall i :: 0 <= i < |fills| ==> fills[i].quantity > 0.0 && fills[i].price > 0.0
  }

  lemma {:induction false} SumIsRow(fills: seq<Fill>, symbol: string)
    ensures var row := AverageCost.RowOf(TradesOf(fills, symbol), symbol);
            Sum(fills).shares == row.quantity && Sum(fills).cost == row.cost
  {
    if fills != [] {
      var n := |fills| - 1;
      SumIsRow(fills[..n], symbol);
      assert TradesOf(fills, symbol)[..n] == TradesOf(fills[..n], symbol);
    }
  }

  /** For any log of purchases, the backtest's lump sum and the gateway's running average end in the same position. */
  lemma EndPositionIsGatewayPosition(budget: real, fills: seq<Fill>, symbol: string)
    requires AreOrdinary(fills)
    ensures AverageCost.AllProper(TradesOf(fills, symbol))
    ensures ResultDocument.EndOf(Credited(Balances(budget, 0.0, 0.0), Sum(fills)))
         == match AverageCost.HoldingOf(TradesOf(fills, symbol), symbol)
            case None => None
            case Some(h) => Some(EndPosition(h.quantity, h.average))
  {
    var ts := TradesOf(fills, symbol);
    SumIsRow(fills, symbol);
    AverageCost.ReplayRefinesAverage(ts, symbol);
    var held := AverageCost.HoldingOf(ts, symbol);
    if held.Some? {
      AverageCost.AverageFromRow(AverageCost.RowOf(ts, symbol), held.value);
    }
  }
}

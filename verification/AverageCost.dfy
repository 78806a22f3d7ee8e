/**
 * Average-cost accounting of a stream of trades, in the two styles the repository uses:
 * the paper gateway keeps a quantity and a running average price, while the legacy
 * engine's replay keeps a quantity and an accumulated cost. Decimals are exact rationals.
 */
module AverageCost {
  import opened Prelude

  datatype Side = Buy | Sell

  datatype Trade = Trade(symbol: string, side: Side, quantity: real, price: real)

  /** A gateway position: strictly positive shares at an average entry price. */
  datatype Holding = Holding(quantity: real, average: real)

  /** A row of the legacy replay. */
  datatype Row = Row(quantity: real, cost: real)

  // ----- the gateway's incremental average -----

  function Bought(held: Option<Holding>, quantity: real, price: real): Holding
    requires quantity > 0.0
    requires held.Some? ==> held.value.quantity > 0.0
  {
    match held
    case None => Holding(quantity, price)
    case Some(h) =>
      var total := h.quantity + quantity;
      Holding(total, (h.quantity * h.average + quantity * price) / total)
  }

  function Sold(held: Holding, quantity: real): Option<Holding> {
    if held.quantity - quantity == 0.0 then None
    else Some(Holding(held.quantity - quantity, held.average))
  }

  predicate Oversells(held: Option<Holding>, t: Trade) {
    t.side == Sell && (held.None? || held.value.quantity < t.quantity)
  }

  lemma TradedQuantity(held: Option<Holding>, t: Trade)
    requires Proper(t) && !Oversells(held, t)
    requires held.Some? ==> held.value.quantity > 0.0
    ensures QuantityOf(Traded(held, t)) == QuantityOf(held) + if t.side == Buy then t.quantity else -t.quantity
  {}

  /** A position after one trade; a sale it cannot cover is refused and changes nothing. */
  function Traded(held: Option<Holding>, t: Trade): (h: Option<Holding>)
    requires Proper(t)
    requires held.Some? ==> held.value.quantity > 0.0
    ensures h.Some? ==> h.value.quantity > 0.0
  {
    if Oversells(held, t) then held
    else if t.side == Buy then Some(Bought(held, t.quantity, t.price))
    else Sold(held.value, t.quantity)
  }

  predicate Proper(t: Trade) {
    t.quantity > 0.0 && t.price > 0.0
  }

  predicate AllProper(ts: seq<Trade>) {
    forall i :: 0 <= i < |ts| ==> Proper(ts[i])
  }

  /** The gateway's position in `symbol` after a stream of trades. */
  function HoldingOf(ts: seq<Trade>, symbol: string): (h: Option<Holding>)
    requires AllProper(ts)
    ensures h.Some? ==> h.value.quantity > 0.0
  {
    if ts == [] then None
    else
      var before := HoldingOf(ts[..|ts| - 1], symbol);
      if ts[|ts| - 1].symbol == symbol then Traded(before, ts[|ts| - 1]) else before
  }

  ghost predicate NeverOversells(ts: seq<Trade>)
    requires AllProper(ts)
  {
    forall i :: 0 <= i < |ts| ==> !Oversells(HoldingOf(ts[..i], ts[i].symbol), ts[i])
  }

  // ----- the legacy replay -----

  function Entered(row: Row, t: Trade): Row {
    if t.side == Buy then Row(row.quantity + t.quantity, row.cost + t.quantity * t.price)
    else
      Row(row.quantity - t.quantity,
          if row.quantity > 0.0 then row.cost - row.cost / row.quantity * t.quantity else row.cost)
  }

  function RowOf(ts: seq<Trade>, symbol: string): Row {
    if ts == [] then Row(0.0, 0.0)
    else
      var before := RowOf(ts[..|ts| - 1], symbol);
      if ts[|ts| - 1].symbol == symbol then Entered(before, ts[|ts| - 1]) else before
  }

  // ----- the two agree -----

  lemma NeverOversellsPrefix(ts: seq<Trade>, n: nat)
    requires AllProper(ts) && NeverOversells(ts) && n <= |ts|
    ensures AllProper(ts[..n]) && NeverOversells(ts[..n])
  {
    forall i | 0 <= i < n
      ensures !Oversells(HoldingOf(ts[..n][..i], ts[..n][i].symbol), ts[..n][i])
    {
      assert ts[..n][..i] == ts[..i];
    }
  }

  lemma QuotientTimesDivisor(x: real, y: real)
    requires y != 0.0
    ensures x / y * y == x
  {}

  function QuantityOf(h: Option<Holding>): real {
    if h.None? then 0.0 else h.value.quantity
  }

  function CostBasis(h: Option<Holding>): real {
    if h.None? then 0.0 else h.value.quantity * h.value.average
  }

  /** Buying adds exactly its value to the cost basis, whatever rounding the division suggests. */
  lemma BoughtBasis(held: Option<Holding>, quantity: real, price: real)
    requires quantity > 0.0
    requires held.Some? ==> held.value.quantity > 0.0
    ensures CostBasis(Some(Bought(held, quantity, price))) == CostBasis(held) + quantity * price
  {
    if held.Some? {
      var total := held.value.quantity + quantity;
      QuotientTimesDivisor(held.value.quantity * held.value.average + quantity * price, total);
    }
  }

  /** The row describes the position: same shares, and a cost of shares times average. */
  ghost predicate Describes(row: Row, held: Option<Holding>) {
    row.quantity == QuantityOf(held) && row.cost == CostBasis(held)
  }

  lemma SoldBasis(h: Holding, quantity: real)
    ensures CostBasis(Sold(h, quantity)) == CostBasis(Some(h)) - quantity * h.average
  {
    assert (h.quantity - quantity) * h.average == h.quantity * h.average - quantity * h.average;
  }

  lemma BuyKeepsDescription(row: Row, held: Option<Holding>, t: Trade)
    requires Proper(t) && t.side == Buy
    requires held.Some? ==> held.value.quantity > 0.0
    requires Describes(row, held)
    ensures Describes(Entered(row, t), Traded(held, t))
  {
    BoughtBasis(held, t.quantity, t.price);
  }

  lemma SaleKeepsDescription(row: Row, h: Holding, t: Trade)
    requires Proper(t) && t.side == Sell && !Oversells(Some(h), t)
    requires h.quantity > 0.0
    requires Describes(row, Some(h))
    ensures Describes(Entered(row, t), Traded(Some(h), t))
  {
    assert row.cost / row.quantity == h.average by {
      QuotientOfProduct(h.quantity, h.average);
    }
    SoldBasis(h, t.quantity);
  }

  lemma QuotientOfProduct(x: real, y: real)
    requires x != 0.0
    ensures (x * y) / x == y
  {}

  lemma AverageFromRow(row: Row, h: Holding)
    requires Describes(row, Some(h)) && h.quantity > 0.0
    ensures row.cost / row.quantity == h.average
  {
    QuotientOfProduct(h.quantity, h.average);
  }

  /**
   * On every stream that never oversells, the cost accumulator and the running average
   * describe the same position.
   */
  lemma {:induction false} ReplayRefinesAverage(ts: seq<Trade>, symbol: string)
    requires AllProper(ts) && NeverOversells(ts)
    ensures Describes(RowOf(ts, symbol), HoldingOf(ts, symbol))
  {
    if ts != [] {
      var n := |ts| - 1;
      NeverOversellsPrefix(ts, n);
      ReplayRefinesAverage(ts[..n], symbol);
      var row, before := RowOf(ts[..n], symbol), HoldingOf(ts[..n], symbol);
      if ts[n].symbol == symbol {
        assert !Oversells(before, ts[n]);
        if ts[n].side == Buy {
          BuyKeepsDescription(row, before, ts[n]);
        } else {
          SaleKeepsDescription(row, before.value, ts[n]);
        }
      }
    }
  }

  // ----- where the average lies -----

  /** Prices of the purchases made since the present position was opened. */
  function OpeningPrices(ts: seq<Trade>, symbol: string): seq<real>
    requires AllProper(ts)
  {
    if ts == [] || HoldingOf(ts, symbol).None? then []
    else
      var t := ts[|ts| - 1];
      var before := OpeningPrices(ts[..|ts| - 1], symbol);
      if t.symbol == symbol && t.side == Buy then before + [t.price] else before
  }

  ghost predicate Within(prices: seq<real>, low: real, high: real) {
    forall p <- prices :: low <= p <= high
  }

  lemma Scale(k: real, x: real, y: real)
    requires k > 0.0 && x <= y
    ensures k * x <= k * y
  {}

  lemma ScaleStrict(k: real, x: real, y: real)
    requires k > 0.0 && x < y
    ensures k * x < k * y
  {}

  lemma QuotientBetween(sum: real, total: real, low: real, high: real)
    requires total > 0.0 && total * low <= sum <= total * high
    ensures low <= sum / total <= high
  {
    var mean := sum / total;
    assert mean * total == sum;
    if mean < low {
      ScaleStrict(total, mean, low);
    }
    if mean > high {
      ScaleStrict(total, high, mean);
    }
  }

  lemma ProductBetween(k: real, x: real, low: real, high: real)
    requires k > 0.0 && low <= x <= high
    ensures k * low <= k * x <= k * high
  {
    Scale(k, low, x);
    Scale(k, x, high);
  }

  lemma WeightedSumBetween(q: real, a: real, n: real, p: real, low: real, high: real)
    requires q > 0.0 && n > 0.0
    requires low <= a <= high && low <= p <= high
    ensures (q + n) * low <= q * a + n * p <= (q + n) * high
  {
    ProductBetween(q, a, low, high);
    ProductBetween(n, p, low, high);
  }

  lemma WeightedMeanBetween(q: real, a: real, n: real, p: real, low: real, high: real)
    requires q > 0.0 && n > 0.0
    requires low <= a <= high && low <= p <= high
    ensures low <= (q * a + n * p) / (q + n) <= high
  {
    WeightedSumBetween(q, a, n, p, low, high);
    QuotientBetween(q * a + n * p, q + n, low, high);
  }

  lemma PurchaseStaysBetween(held: Option<Holding>, t: Trade, low: real, high: real)
    requires Proper(t) && low <= t.price <= high
    requires held.Some? ==> held.value.quantity > 0.0 && low <= held.value.average <= high
    ensures low <= Bought(held, t.quantity, t.price).average <= high
  {
    if held.Some? {
      WeightedMeanBetween(held.value.quantity, held.value.average, t.quantity, t.price, low, high);
    }
  }

  /**
   * The average of an open position lies between the least and the greatest price paid
   * since it was opened: any bounds on those prices also bound the average.
   */
  lemma {:induction false} AverageBetweenOpeningPrices(ts: seq<Trade>, symbol: string, low: real, high: real)
    requires AllProper(ts)
    requires HoldingOf(ts, symbol).Some?
    requires Within(OpeningPrices(ts, symbol), low, high)
    ensures OpeningPrices(ts, symbol) != []
    ensures low <= HoldingOf(ts, symbol).value.average <= high
  {
    var n := |ts| - 1;
    var t, before := ts[n], HoldingOf(ts[..n], symbol);
    var prices := OpeningPrices(ts[..n], symbol);
    if t.symbol == symbol && t.side == Buy {
      assert HoldingOf(ts, symbol) == Some(Bought(before, t.quantity, t.price));
      assert OpeningPrices(ts, symbol) == prices + [t.price];
      assert t.price in OpeningPrices(ts, symbol);
      assert forall p <- prices :: p in OpeningPrices(ts, symbol);
      if before.Some? {
        AverageBetweenOpeningPrices(ts[..n], symbol, low, high);
      }
      PurchaseStaysBetween(before, t, low, high);
    } else {
      AverageBetweenOpeningPrices(ts[..n], symbol, low, high);
    }
  }

  /** A sale that leaves shares behind leaves their average price as it was. */
  lemma SellKeepsAverage(ts: seq<Trade>, t: Trade)
    requires AllProper(ts) && Proper(t) && t.side == Sell && !Oversells(HoldingOf(ts, t.symbol), t)
    ensures AllProper(ts + [t])
    ensures
      var before, after := HoldingOf(ts, t.symbol).value, HoldingOf(ts + [t], t.symbol);
      if before.quantity == t.quantity then after == None
      else after == Some(Holding(before.quantity - t.quantity, before.average))
  {
    var all := ts + [t];
    assert all[..|ts|] == ts && all[|ts|] == t;
    assert HoldingOf(all, t.symbol) == Traded(HoldingOf(ts, t.symbol), t);
  }

  // ----- conservation of value -----

  /** What one trade realises, given the position it meets. */
  function Gain(held: Option<Holding>, t: Trade): real {
    if t.side == Buy || held.None? then 0.0 else t.quantity * (t.price - held.value.average)
  }

  function CashMove(t: Trade): real {
    if t.side == Buy then -(t.quantity * t.price) else t.quantity * t.price
  }

  function CashFlow(ts: seq<Trade>): real {
    if ts == [] then 0.0
    else
      CashFlow(ts[..|ts| - 1]) + CashMove(ts[|ts| - 1])
  }

  /** Gains realised by the sales of a stream, each against the average cost at that moment. */
  function RealisedGains(ts: seq<Trade>): real
    requires AllProper(ts)
  {
    if ts == [] then 0.0
    else
      var t := ts[|ts| - 1];
      var before := HoldingOf(ts[..|ts| - 1], t.symbol);
      RealisedGains(ts[..|ts| - 1]) + Gain(before, t)
  }

  function TotalBasis(ts: seq<Trade>, symbols: seq<string>): real
    requires AllProper(ts)
  {
    if symbols == [] then 0.0
    else CostBasis(HoldingOf(ts, symbols[0])) + TotalBasis(ts, symbols[1..])
  }

  lemma {:induction false} TotalBasisAfterTrade(ts: seq<Trade>, symbols: seq<string>)
    requires AllProper(ts) && ts != [] && Distinct(symbols)
    ensures
      var init, x := ts[..|ts| - 1], ts[|ts| - 1].symbol;
      TotalBasis(ts, symbols) == TotalBasis(init, symbols) +
        if x in symbols then CostBasis(HoldingOf(ts, x)) - CostBasis(HoldingOf(init, x)) else 0.0
  {
    if symbols != [] {
      assert forall s <- symbols[1..] :: s in symbols;
      TotalBasisAfterTrade(ts, symbols[1..]);
      assert symbols[0] !in symbols[1..];
    }
  }

  lemma {:induction false} NothingHeldAtStart(symbols: seq<string>)
    ensures TotalBasis([], symbols) == 0.0
  {
    if symbols != [] {
      NothingHeldAtStart(symbols[1..]);
    }
  }

  lemma Distribute(k: real, x: real, y: real)
    ensures k * (x - y) == k * x - k * y
  {}

  /** One trade moves as much value between cash and cost basis as it does not realise. */
  lemma TradeConservesValue(held: Option<Holding>, t: Trade)
    requires Proper(t) && !Oversells(held, t)
    requires held.Some? ==> held.value.quantity > 0.0
    ensures CashMove(t) + CostBasis(Traded(held, t)) - CostBasis(held) == Gain(held, t)
  {
    if t.side == Buy {
      BoughtBasis(held, t.quantity, t.price);
    } else {
      SoldBasis(held.value, t.quantity);
      Distribute(t.quantity, t.price, held.value.average);
    }
  }

  /** Cash plus the cost basis of everything held is the starting cash plus realised gains. */
  lemma {:induction false} CashPlusBasisIsStartPlusGains(ts: seq<Trade>, symbols: seq<string>, start: real)
    requires AllProper(ts) && NeverOversells(ts)
    requires Distinct(symbols) && forall t <- ts :: t.symbol in symbols
    ensures start + CashFlow(ts) + TotalBasis(ts, symbols) == start + RealisedGains(ts)
  {
    if ts == [] {
      NothingHeldAtStart(symbols);
    } else {
      var n := |ts| - 1;
      var t := ts[n];
      NeverOversellsPrefix(ts, n);
      CashPlusBasisIsStartPlusGains(ts[..n], symbols, start);
      TotalBasisAfterTrade(ts, symbols);
      assert t in ts;
      TradeConservesValue(HoldingOf(ts[..n], t.symbol), t);
    }
  }

  // ----- extending a stream by one trade -----

  lemma StreamExtended(ts: seq<Trade>, t: Trade)
    requires AllProper(ts) && NeverOversells(ts)
    requires Proper(t) && !Oversells(HoldingOf(ts, t.symbol), t)
    ensures AllProper(ts + [t]) && NeverOversells(ts + [t])
    ensures CashFlow(ts + [t]) == CashFlow(ts) + CashMove(t)
    ensures forall symbol ::
              HoldingOf(ts + [t], symbol) ==
              if symbol == t.symbol then Traded(HoldingOf(ts, symbol), t) else HoldingOf(ts, symbol)
  {
    var all := ts + [t];
    assert all[..|ts|] == ts && all[|ts|] == t;
    assert AllProper(all);
    forall i | 0 <= i < |all|
      ensures !Oversells(HoldingOf(all[..i], all[i].symbol), all[i])
    {
      if i < |ts| {
        assert all[..i] == ts[..i];
      }
    }
  }

  lemma {:induction false} AverageIsPositive(ts: seq<Trade>, symbol: string)
    requires AllProper(ts) && HoldingOf(ts, symbol).Some?
    ensures HoldingOf(ts, symbol).value.average > 0.0
  {
    var n := |ts| - 1;
    var before := HoldingOf(ts[..n], symbol);
    if before.Some? {
      AverageIsPositive(ts[..n], symbol);
    }
    if ts[n].symbol == symbol && ts[n].side == Buy {
      BoughtAverageIsPositive(before, ts[n].quantity, ts[n].price);
    }
  }

  lemma BoughtAverageIsPositive(held: Option<Holding>, quantity: real, price: real)
    requires quantity > 0.0 && price > 0.0
    requires held.Some? ==> held.value.quantity > 0.0 && held.value.average > 0.0
    ensures Bought(held, quantity, price).average > 0.0
  {
    if held.Some? {
      var h := held.value;
      PositiveQuotient(h.quantity * h.average + quantity * price, h.quantity + quantity);
    }
  }

  lemma PositiveQuotient(x: real, y: real)
    requires x > 0.0 && y > 0.0
    ensures x / y > 0.0
  {}

  /** Shares bought less shares sold. */
  function NetShares(ts: seq<Trade>, symbol: string): real {
    if ts == [] then 0.0
    else
      var t := ts[|ts| - 1];
      NetShares(ts[..|ts| - 1], symbol) +
      (if t.symbol != symbol then 0.0 else if t.side == Buy then t.quantity else -t.quantity)
  }

  /**
   * What one trade does. A purchase adds its shares and its price to what the position cost;
   * a sale leaves the average of what remains, closes the position when nothing does, and
   * is refused exactly when more is sold than held. Cash moves by quantity times price.
   */
  lemma TradeMeans(held: Option<Holding>, t: Trade)
    requires Proper(t) && (held.Some? ==> held.value.quantity > 0.0)
    ensures Oversells(held, t) <==> t.side == Sell && !(held.Some? && held.value.quantity >= t.quantity)
    ensures Oversells(held, t) ==> Traded(held, t) == held
    ensures t.side == Sell && !Oversells(held, t) ==>
              Traded(held, t) == if held.value.quantity == t.quantity then None
                                 else Some(Holding(held.value.quantity - t.quantity, held.value.average))
    ensures t.side == Buy ==>
              var h := Traded(held, t);
              && h.Some? && h.value.quantity == (if held.Some? then held.value.quantity else 0.0) + t.quantity
              && h.value.quantity * h.value.average
                 == (if held.Some? then held.value.quantity * held.value.average else 0.0) + t.quantity * t.price
    ensures CashMove(t) == if t.side == Buy then -(t.quantity * t.price) else t.quantity * t.price
  {
    if t.side == Buy {
      BoughtBasis(held, t.quantity, t.price);
    }
  }

  lemma {:induction false} HoldingIsNetShares(ts: seq<Trade>, symbol: string)
    requires AllProper(ts) && NeverOversells(ts)
    ensures QuantityOf(HoldingOf(ts, symbol)) == NetShares(ts, symbol)
  {
    if ts != [] {
      var n := |ts| - 1;
      NeverOversellsPrefix(ts, n);
      HoldingIsNetShares(ts[..n], symbol);
      if ts[n].symbol == symbol {
        assert !Oversells(HoldingOf(ts[..n], symbol), ts[n]);
      }
    }
  }
}

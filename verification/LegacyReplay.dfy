/** End-of-run positions reconstructed from the legacy engine's fills. */
module LegacyReplay {
  import opened Prelude
  import opened AverageCost

  datatype EngineFill = EngineFill(sequence: Option<int>, trade: Trade)

  /** `fill_sequence or 0`. */
  function Key(f: EngineFill): int {
    if f.sequence.Some? then f.sequence.value else 0
  }

  // ----- Python's stable sort by sequence number -----

  function Insert(s: seq<EngineFill>, f: EngineFill): seq<EngineFill> {
    if s == [] || Key(s[|s| - 1]) <= Key(f) then s + [f]
    else Insert(s[..|s| - 1], f) + [s[|s| - 1]]
  }

  function Sorted(fills: seq<EngineFill>): seq<EngineFill> {
    if fills == [] then [] else Insert(Sorted(fills[..|fills| - 1]), fills[|fills| - 1])
  }

  ghost predicate Ordered(s: seq<EngineFill>) {
    forall i, j :: 0 <= i < j < |s| ==> Key(s[i]) <= Key(s[j])
  }

  /** The fill bears the sequence number, where none counts as zero. */
  ghost predicate Bears(f: EngineFill, number: int) {
    f.sequence == Some(number) || (f.sequence == None && number == 0)
  }

  /** The fills that bear a sequence number, in order. */
  ghost function WithKey(s: seq<EngineFill>, key: int): seq<EngineFill> {
    if s == [] then []
    else WithKey(s[..|s| - 1], key) + if Bears(s[|s| - 1], key) then [s[|s| - 1]] else []
  }

  lemma WithKeySnoc(s: seq<EngineFill>, f: EngineFill, key: int)
    ensures WithKey(s + [f], key) == WithKey(s, key) + if Bears(f, key) then [f] else []
  {
    assert (s + [f])[..|s|] == s;
  }

  ghost predicate UpTo(s: seq<EngineFill>, bound: int) {
    forall i :: 0 <= i < |s| ==> Key(s[i]) <= bound
  }

  lemma {:induction false} InsertStaysUpTo(s: seq<EngineFill>, f: EngineFill, bound: int)
    requires UpTo(s, bound) && Key(f) <= bound
    ensures UpTo(Insert(s, f), bound)
  {
    if s != [] && Key(s[|s| - 1]) > Key(f) {
      InsertStaysUpTo(s[..|s| - 1], f, bound);
    }
  }

  lemma {:induction false} InsertKeepsOrder(s: seq<EngineFill>, f: EngineFill)
    requires Ordered(s)
    ensures Ordered(Insert(s, f))
  {
    if s != [] && Key(s[|s| - 1]) > Key(f) {
      InsertKeepsOrder(s[..|s| - 1], f);
      InsertStaysUpTo(s[..|s| - 1], f, Key(s[|s| - 1]));
    }
  }

  lemma {:induction false} InsertAddsOne(s: seq<EngineFill>, f: EngineFill)
    ensures multiset(Insert(s, f)) == multiset(s) + multiset{f}
  {
    if s != [] && Key(s[|s| - 1]) > Key(f) {
      InsertAddsOne(s[..|s| - 1], f);
      assert s == s[..|s| - 1] + [s[|s| - 1]];
    }
  }

  lemma {:induction false} InsertIsStable(s: seq<EngineFill>, f: EngineFill, key: int)
    requires Ordered(s)
    ensures WithKey(Insert(s, f), key) == WithKey(s, key) + if Bears(f, key) then [f] else []
  {
    WithKeySnoc(s, f, key);
    if s != [] && Key(s[|s| - 1]) > Key(f) {
      InsertIsStable(s[..|s| - 1], f, key);
      WithKeySnoc(Insert(s[..|s| - 1], f), s[|s| - 1], key);
      if Bears(f, key) {
        assert WithKey(s, key) == WithKey(s[..|s| - 1], key);
      }
    }
  }

  lemma {:induction false} SortedIsOrdered(fills: seq<EngineFill>)
    ensures Ordered(Sorted(fills)) && multiset(Sorted(fills)) == multiset(fills)
  {
    if fills != [] {
      var init, last := fills[..|fills| - 1], fills[|fills| - 1];
      SortedIsOrdered(init);
      InsertKeepsOrder(Sorted(init), last);
      InsertAddsOne(Sorted(init), last);
      assert fills == init + [last];
    }
  }

  /** The sort orders the fills by sequence number, none counting as zero, and loses none. */
  lemma SortedIsOrderedPermutation(fills: seq<EngineFill>)
    ensures multiset(Sorted(fills)) == multiset(fills)
    ensures forall i, j, m, n ::
              0 <= i < j < |Sorted(fills)| && Bears(Sorted(fills)[i], m) && Bears(Sorted(fills)[j], n) ==> m <= n
  {
    SortedIsOrdered(fills);
  }

  /** Fills with one key keep the order in which they were given. */
  lemma {:induction false} SortIsStable(fills: seq<EngineFill>, key: int)
    ensures WithKey(Sorted(fills), key) == WithKey(fills, key)
  {
    if fills != [] {
      SortIsStable(fills[..|fills| - 1], key);
      SortedIsOrdered(fills[..|fills| - 1]);
      InsertIsStable(Sorted(fills[..|fills| - 1]), fills[|fills| - 1], key);
    }
  }

  // ----- the replay -----

  function TradesOf(fills: seq<EngineFill>): seq<Trade> {
    seq(|fills|, i requires 0 <= i < |fills| => fills[i].trade)
  }

  /**
   * A purchase adds shares and cost. A sale removes shares and, while shares are held, leaves
   * the average cost of what remains; otherwise the cost stays.
   */
  lemma TradeEntersRow(row: Row, t: Trade)
    ensures
      var after := Entered(row, t);
      && (t.side == Buy ==> after.quantity == row.quantity + t.quantity && after.cost == row.cost + t.quantity * t.price)
      && (t.side == Sell ==> after.quantity == row.quantity - t.quantity)
      && (t.side == Sell && row.quantity > 0.0 ==> after.cost * row.quantity == row.cost * after.quantity)
      && (t.side == Sell && row.quantity <= 0.0 ==> after.cost == row.cost)
  {}

  function Look(rows: map<string, Row>, symbol: string): Row {
    if symbol in rows then rows[symbol] else Row(0.0, 0.0)
  }

  lemma RowOneMore(trades: seq<Trade>, i: nat, symbol: string)
    requires i < |trades|
    ensures RowOf(trades[..i + 1], symbol) ==
            if trades[i].symbol == symbol then Entered(RowOf(trades[..i], symbol), trades[i])
            else RowOf(trades[..i], symbol)
  {
    assert trades[..i + 1][..i] == trades[..i];
  }

  /** The replayed row of every symbol traded. */
  method ReplayRows(trades: seq<Trade>) returns (rows: map<string, Row>)
    ensures forall symbol :: Look(rows, symbol) == RowOf(trades, symbol)
  {
    rows := map[];
    for i := 0 to |trades|
      invariant forall symbol :: Look(rows, symbol) == RowOf(trades[..i], symbol)
    {
      var t := trades[i];
      var row := Look(rows, t.symbol);
      ghost var before := row;
      if t.side == Buy {
        row := Row(row.quantity + t.quantity, row.cost + t.quantity * t.price);
      } else {
        var cost := if row.quantity > 0.0 then row.cost - row.cost / row.quantity * t.quantity else row.cost;
        row := Row(row.quantity - t.quantity, cost);
      }
      assert row == Entered(before, t);
      ghost var updated := rows[t.symbol := row];
      forall symbol
        ensures Look(updated, symbol) == RowOf(trades[..i + 1], symbol)
      {
        RowOneMore(trades, i, symbol);
      }
      rows := rows[t.symbol := row];
    }
    assert trades[..|trades|] == trades;
  }

  /** Only symbols whose replayed quantity is positive are reported, at cost over quantity. */
  method DeriveEndPositions(fills: seq<EngineFill>) returns (held: map<string, Holding>)
    ensures forall symbol ::
              var row := RowOf(TradesOf(Sorted(fills)), symbol);
              && (symbol in held <==> row.quantity > 0.0)
              && (symbol in held ==> held[symbol] == Holding(row.quantity, row.cost / row.quantity))
  {
    var trades := TradesOf(Sorted(fills));
    var rows := ReplayRows(trades);
    held := map symbol | symbol in rows && rows[symbol].quantity > 0.0 ::
      Holding(rows[symbol].quantity, rows[symbol].cost / rows[symbol].quantity);
    forall symbol
      ensures
        var row := RowOf(trades, symbol);
        && (symbol in held <==> row.quantity > 0.0)
        && (symbol in held ==> held[symbol] == Holding(row.quantity, row.cost / row.quantity))
    {
      assert Look(rows, symbol) == RowOf(trades, symbol);
    }
  }

  /** On a stream that never oversells, the replayed positions are the gateway's positions. */
  lemma ReplayedPositionIsGatewayPosition(ts: seq<Trade>, symbol: string)
    requires AllProper(ts) && NeverOversells(ts)
    ensures
      var row := RowOf(ts, symbol);
      HoldingOf(ts, symbol) ==
      if row.quantity > 0.0 then Some(Holding(row.quantity, row.cost / row.quantity)) else None
  {
    ReplayRefinesAverage(ts, symbol);
    var held := HoldingOf(ts, symbol);
    if held.Some? {
      AverageFromRow(RowOf(ts, symbol), held.value);
    }
  }
}

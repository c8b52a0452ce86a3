/**
 journal.py: the trades table of one virtual book and the money lenses that read it. A NULL price, fill or pnl
 is zero, as every reader coalesces it.
 */
module Journal {
  import opened Money

  datatype Side = Buy | Sell | Short | Cover | Dividend | CashDebit

  datatype Status =
    | Open | PendingFill | Closed | ClosedExternal
    | PendingProtective | Canceled | Expired | Rejected | DoneForDay | PhantomClose

  datatype Row = Row(orderId: string, side: Side, symbol: string, occ: Option<string>,
                     qty: real, price: real, fill: real, status: Status, pnl: real)

  /** `COALESCE(NULLIF(fill_price, 0), price)` */
  function Executed(r: Row): real {
    if r.fill != 0.0 then r.fill else r.price
  }

  function Notional(r: Row): real {
    Times(r.qty, Executed(r))
  }

  /** Every option notional is premium × qty × 100. */
  function Value(r: Row): real {
    if r.occ.Some? then Notional(r) * 100.0 else Notional(r)
  }

  predicate Live(r: Row) {
    r.status.Open? || r.status.PendingFill?
  }

  /** Does the row count in the cash algebra? */
  predicate MovesCash(r: Row) {
    && !(r.status.PendingProtective? || r.status.Canceled? || r.status.Expired? || r.status.Rejected?
         || r.status.DoneForDay? || r.status.PhantomClose?)
    && (r.status.ClosedExternal? ==> r.fill > 0.0)
    && r.qty > 0.0
    && Executed(r) > 0.0
  }

  predicate PaysCash(side: Side) {
    side.Buy? || side.Cover? || side.CashDebit?
  }

  function CashFlow(r: Row): real {
    if !MovesCash(r) then 0.0
    else if PaysCash(r.side) then -Value(r)
    else Value(r)
  }

  /** Signed cost of a position row: what a buyer paid, minus what a seller received. */
  function Cost(r: Row): real {
    match r.side
    case Buy | Cover => Value(r)
    case Sell | Short => -Value(r)
    case Dividend | CashDebit => 0.0
  }

  /** The rows a query selects: all, one option contract, or the entry rows of one stock. */
  datatype Target = Leg(occ: string) | Entry(symbol: string, side: Side)

  predicate Selects(t: Target, r: Row) {
    match t
    case Leg(occ) => r.occ == Some(occ)
    case Entry(symbol, side) => r.occ.None? && r.symbol == symbol && r.side == side
  }

  /** The sums the lenses take over the table. */
  datatype Lens =
    | CashLens | PnlLens | OpenCost
    | TargetCost(target: Target)
    | SideQty(target: Target, side: Side)
    | SideNotional(target: Target, side: Side)
    | Mentions(id: string)
    | CashFor(id: string)

  function Amount(lens: Lens, r: Row): real {
    match lens
    case CashLens => CashFlow(r)
    case PnlLens => r.pnl
    case OpenCost => if Live(r) then Cost(r) else 0.0
    case TargetCost(t) => if Live(r) && Selects(t, r) then Cost(r) else 0.0
    case SideQty(t, side) => if Live(r) && Selects(t, r) && r.side == side then r.qty else 0.0
    case SideNotional(t, side) => if Live(r) && Selects(t, r) && r.side == side then Notional(r) else 0.0
    case Mentions(id) => if r.orderId == id then 1.0 else 0.0
    case CashFor(id) => if r.orderId == id then CashFlow(r) else 0.0
  }

  function SumRows(rows: seq<Row>, lens: Lens): real {
    if rows == [] then 0.0
    else SumRows(rows[..|rows| - 1], lens) + Amount(lens, rows[|rows| - 1])
  }

  lemma SumAppend(rows: seq<Row>, r: Row, lens: Lens)
    ensures SumRows(rows + [r], lens) == SumRows(rows, lens) + Amount(lens, r)
  {
    assert (rows + [r])[..|rows|] == rows;
  }

  function Cash(rows: seq<Row>): real {
    SumRows(rows, CashLens)
  }

  predicate HasActivity(rows: seq<Row>, id: string) {
    exists i :: 0 <= i < |rows| && rows[i].orderId == id
  }

  lemma {:induction false} MentionsCount(rows: seq<Row>, id: string)
    ensures SumRows(rows, Mentions(id)) >= 0.0
    ensures HasActivity(rows, id) <==> SumRows(rows, Mentions(id)) > 0.0
  {
    if rows != [] {
      var init := rows[..|rows| - 1];
      MentionsCount(init, id);
      if i :| 0 <= i < |rows| && rows[i].orderId == id {
        if i < |rows| - 1 {
          assert init[i].orderId == id;
        }
      }
    }
  }

  /** `UPDATE trades SET status='closed'` on the live rows of a target. */
  function Flip(t: Target, r: Row): Row {
    if Live(r) && Selects(t, r) then r.(status := Closed) else r
  }

  function CloseLive(rows: seq<Row>, t: Target): (r: seq<Row>)
    ensures |r| == |rows|
  {
    if rows == [] then []
    else CloseLive(rows[..|rows| - 1], t) + [Flip(t, rows[|rows| - 1])]
  }

  lemma FlipKeeps(t: Target, r: Row, lens: Lens)
    requires lens.CashLens? || lens.PnlLens? || lens.Mentions? || lens.CashFor?
    ensures Amount(lens, Flip(t, r)) == Amount(lens, r)
  {
    var f := Flip(t, r);
    assert f.qty == r.qty && Executed(f) == Executed(r);
  }

  /** Closing rows moves no cash and no realized pnl, and the table mentions the same orders. */
  lemma {:induction false} CloseLiveKeeps(rows: seq<Row>, t: Target, lens: Lens)
    requires lens.CashLens? || lens.PnlLens? || lens.Mentions? || lens.CashFor?
    ensures SumRows(CloseLive(rows, t), lens) == SumRows(rows, lens)
  {
    if rows != [] {
      var init, last := rows[..|rows| - 1], rows[|rows| - 1];
      CloseLiveKeeps(init, t, lens);
      SumAppend(CloseLive(init, t), Flip(t, last), lens);
      FlipKeeps(t, last, lens);
    }
  }

  /** Only the open cost of the target leaves. */
  lemma {:induction false} CloseLiveCost(rows: seq<Row>, t: Target)
    ensures SumRows(CloseLive(rows, t), OpenCost) == SumRows(rows, OpenCost) - SumRows(rows, TargetCost(t))
  {
    if rows != [] {
      var init, last := rows[..|rows| - 1], rows[|rows| - 1];
      CloseLiveCost(init, t);
      SumAppend(CloseLive(init, t), Flip(t, last), OpenCost);
    }
  }

  /** No live row of the target is left. */
  ghost predicate Flat(rows: seq<Row>, t: Target) {
    forall i :: 0 <= i < |rows| ==> !(Live(rows[i]) && Selects(t, rows[i]))
  }

  lemma {:induction false} CloseLiveAt(rows: seq<Row>, t: Target, i: nat)
    requires i < |rows|
    ensures CloseLive(rows, t)[i] == Flip(t, rows[i])
  {
    if i < |rows| - 1 {
      CloseLiveAt(rows[..|rows| - 1], t, i);
    }
  }

  /** Closing flattens its target and opens nothing. */
  lemma CloseLiveFlattens(rows: seq<Row>, t: Target, u: Target)
    ensures Flat(CloseLive(rows, t), t)
    ensures Flat(rows, u) ==> Flat(CloseLive(rows, t), u)
  {
    forall i | 0 <= i < |rows| ensures CloseLive(rows, t)[i] == Flip(t, rows[i]) {
      CloseLiveAt(rows, t, i);
    }
  }

  lemma {:induction false} FlatHasNoQty(rows: seq<Row>, t: Target, side: Side)
    requires Flat(rows, t)
    ensures SumRows(rows, SideQty(t, side)) == 0.0
  {
    if rows != [] {
      FlatHasNoQty(rows[..|rows| - 1], t, side);
    }
  }

  /** Notional bought minus notional sold over the live rows of a target. */
  function NetNotional(rows: seq<Row>, t: Target): real {
    SumRows(rows, SideNotional(t, Buy)) + SumRows(rows, SideNotional(t, Cover))
    - SumRows(rows, SideNotional(t, Sell)) - SumRows(rows, SideNotional(t, Short))
  }

  /** The cost that leaves with a target, side by side. */
  lemma {:induction false} TargetCostBySide(rows: seq<Row>, t: Target)
    ensures t.Leg? ==> SumRows(rows, TargetCost(t)) == NetNotional(rows, t) * 100.0
    ensures t.Entry? ==> SumRows(rows, TargetCost(t)) == NetNotional(rows, t)
  {
    if rows != [] {
      var last := rows[|rows| - 1];
      TargetCostBySide(rows[..|rows| - 1], t);
      var n := Notional(last);
      assert Amount(SideNotional(t, Buy), last) + Amount(SideNotional(t, Cover), last)
             - Amount(SideNotional(t, Sell), last) - Amount(SideNotional(t, Short), last)
          == if !(Live(last) && Selects(t, last)) || last.side.Dividend? || last.side.CashDebit? then 0.0
             else if last.side.Buy? || last.side.Cover? then n else -n;
    }
  }

  /** The other sides of an entry target are empty: the target names its side. */
  lemma {:induction false} EntryIsOneSided(rows: seq<Row>, t: Target, side: Side)
    requires t.Entry? && t.side != side
    ensures SumRows(rows, SideNotional(t, side)) == 0.0
  {
    if rows != [] {
      EntryIsOneSided(rows[..|rows| - 1], t, side);
    }
  }

  // ----- what a row moves -----

  /** The order never became a trade of this book. */
  ghost predicate Dead(status: Status) {
    status in {PendingProtective, Canceled, Expired, Rejected, DoneForDay, PhantomClose}
  }

  /** The execution price a row counts with: its fill where it has one, else the price it was journaled at. */
  ghost predicate ExecutedAt(r: Row, price: real) {
    if r.fill != 0.0 then price == r.fill else price == r.price
  }

  /**
   What one row does to virtual cash: a buy, a cover or a debit pays quantity times execution price, a sell, a short or
   a dividend receives it, a hundredfold for options; dead orders, rows without quantity or price, and rows closed
   externally without a fill move nothing.
   */
  lemma RowMoves(r: Row, price: real)
    requires ExecutedAt(r, price)
    ensures CashFlow(r) == if Dead(r.status) || r.qty <= 0.0 || price <= 0.0
                              || (r.status == ClosedExternal && r.fill <= 0.0) then 0.0
                           else (if r.side in {Buy, Cover, CashDebit} then -1.0 else 1.0)
                                * (if r.occ.Some? then 100.0 else 1.0) * Times(r.qty, price)
  {
  }

  /** Buying and selling the same quantity at two executed prices moves the difference. */
  lemma RoundTripMoves(rows: seq<Row>, open: Row, close: Row)
    requires open.status == Closed && close.status == Closed && open.occ.None? && close.occ.None?
    requires open.qty == close.qty > 0.0 && open.fill > 0.0 && close.fill > 0.0
    requires (open.side, close.side) in {(Buy, Sell), (Short, Cover)}
    ensures Cash(rows + [open] + [close])
         == Cash(rows) + Times(open.qty, if open.side == Buy then close.fill - open.fill else open.fill - close.fill)
  {
    SumAppend(rows, open, CashLens);
    SumAppend(rows + [open], close, CashLens);
    Distribute(open.qty, close.fill, -open.fill);
    Distribute(open.qty, open.fill, -close.fill);
  }

  // ----- the table as an object -----

  class Book {
    var rows: seq<Row>

    constructor ()
      ensures rows == []
    {
      rows := [];
    }

    /** log_trade */
    method LogTrade(r: Row)
      modifies this
      ensures rows == old(rows) + [r]
    {
      rows := rows + [r];
    }

    /** close_leg_rows_for_occ and close_stock_entry_rows */
    method Close(t: Target)
      modifies this
      ensures rows == CloseLive(old(rows), t) && Flat(rows, t)
    {
      CloseLiveFlattens(rows, t, t);
      rows := CloseLive(rows, t);
    }

    /** get_virtual_cash */
    method VirtualCash(initial: real) returns (cash: real)
      ensures cash == initial + Cash(rows)
    {
      var totalBuys, totalSells := 0.0, 0.0;
      for i := 0 to |rows|
        invariant totalSells - totalBuys == Cash(rows[..i])
      {
        var r := rows[i];
        assert rows[..i + 1] == rows[..i] + [r];
        SumAppend(rows[..i], r, CashLens);
        if MovesCash(r) {
          var notional := if r.occ.Some? then Times(r.qty, Executed(r)) * 100.0 else Times(r.qty, Executed(r));
          if PaysCash(r.side) {
            totalBuys := totalBuys + notional;
          } else {
            totalSells := totalSells + notional;
          }
        }
      }
      assert rows[..|rows|] == rows;
      cash := initial - totalBuys + totalSells;
    }
  }
}

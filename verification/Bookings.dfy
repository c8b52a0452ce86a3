/**
 activities_capture.py: what each of the five writers books, exactly when, and how much: the cash, the realized pnl and
 the positions of the book before and after one activity.
 */
module Bookings {
  import opened Money
  import opened Sums
  import opened Journal
  import opened Writers
  import opened Accounts
  import CP = CapturePass
  import SE = StockEvents

  /** One row of the activity is booked: the book's cash and its realized pnl rise by these amounts. */
  ghost predicate Books(before: seq<Row>, after: seq<Row>, id: string, cash: real, pnl: real) {
    && !HasActivity(before, id) && HasActivity(after, id)
    && |after| == |before| + 1
    && Cash(after) == Cash(before) + cash
    && SumRows(after, CashFor(id)) == cash
    && SumRows(after, PnlLens) == SumRows(before, PnlLens) + pnl
  }

  /** The activity is new to the book, and the pass could read what it needs. */
  ghost predicate Due(rows: seq<Row>, id: string) {
    id != "" && !HasActivity(rows, id)
  }

  lemma AppendBooks(rows: seq<Row>, row: Row, cash: real)
    requires !HasActivity(rows, row.orderId) && CashFlow(row) == cash
    ensures Books(rows, rows + [row], row.orderId, cash, row.pnl)
  {
    FirstRow(rows, row);
    SumAppend(rows, row, CashLens);
    SumAppend(rows, row, PnlLens);
  }

  lemma CloseBooks(rows: seq<Row>, row: Row, t: Target, cash: real)
    requires !HasActivity(rows, row.orderId) && CashFlow(row) == cash
    requires row.status == Closed
    ensures Books(rows, CloseLive(rows + [row], t), row.orderId, cash, row.pnl)
    ensures CloseLive(rows + [row], t)[|rows|] == row
    ensures Flat(CloseLive(rows + [row], t), t)
  {
    AppendBooks(rows, row, cash);
    var all := rows + [row];
    CloseLiveKeeps(all, t, CashLens);
    CloseLiveKeeps(all, t, PnlLens);
    CloseLiveKeeps(all, t, CashFor(row.orderId));
    CloseLiveKeeps(all, t, Mentions(row.orderId));
    MentionsCount(all, row.orderId);
    MentionsCount(CloseLive(all, t), row.orderId);
    CloseLiveFlattens(all, t, t);
    CloseLiveAt(all, t, |rows|);
  }

  /** The row the book gained is a closed one on this side, of this quantity. */
  ghost predicate Gained(before: seq<Row>, after: seq<Row>, side: Side, qty: real)
    requires |after| == |before| + 1
  {
    after[|before|].side == side && after[|before|].qty == qty && after[|before|].status == Closed
  }

  // ----- settlement cash -----

  /** The book has a row of the contract whose order was not canceled, expired or rejected. */
  ghost predicate HasTraded(rows: seq<Row>, occ: string) {
    exists i :: 0 <= i < |rows| && rows[i].occ == Some(occ) && rows[i].status !in {Canceled, Expired, Rejected}
  }

  /**
   A book books the settlement of a contract it traded, exactly once: its cash rises by the broker's amount, whatever
   its sign, its pnl by that amount to the cent, and its positions stay.
   */
  lemma SettlementBooks(pid: int, rows: seq<Row>, e: Event)
    requires e.Settlement?
    ensures var after := Step(pid, rows, e);
            if Due(rows, e.id) && e.amount.Some? && e.amount.value != 0.0 && e.leg.Some? && e.readable
               && HasTraded(rows, e.leg.value)
            then Books(rows, after, e.id, e.amount.value, Round2(e.amount.value))
                 && SumRows(after, OpenCost) == SumRows(rows, OpenCost)
            else after == rows
  {
    if Decide(pid, rows, e).Booking? {
      var row := Decide(pid, rows, e).row;
      CashRowFlow(e.id, e.leg.value, e.amount.value, Round2(e.amount.value));
      AppendBooks(rows, row, e.amount.value);
      SumAppend(rows, row, OpenCost);
    }
  }

  /** In these events the id stands for a settlement of the broker's amount. */
  ghost predicate Settles(es: seq<Event>, id: string, amount: real) {
    forall i :: 0 <= i < |es| && es[i].id == id ==> es[i].Settlement? && es[i].amount == Some(amount)
  }

  /** Over any run a journal's cash for a settlement is nothing, or, once it is booked, the broker's amount. */
  lemma {:induction false} RunSettles(pid: int, rows: seq<Row>, es: seq<Event>, id: string, amount: real)
    requires !HasActivity(rows, id) && Settles(es, id, amount)
    ensures SumRows(Run(pid, rows, es), CashFor(id)) == if HasActivity(Run(pid, rows, es), id) then amount else 0.0
  {
    if es == [] {
      NoActivityNoCash(rows, id);
    } else {
      var init, e := es[..|es| - 1], es[|es| - 1];
      RunSettles(pid, rows, init, id, amount);
      if e.id == id {
        SettlementBooks(pid, Run(pid, rows, init), e);
      } else {
        SE.OtherEventIsSame(pid, Run(pid, rows, init), e, id);
      }
    }
  }

  // ----- option closes -----

  ghost function Held(rows: seq<Row>, t: Target, side: Side): real {
    SumRows(rows, SideQty(t, side))
  }

  ghost function PaidFor(rows: seq<Row>, t: Target, side: Side): real {
    SumRows(rows, SideNotional(t, side))
  }

  /** What one contract of the position cost on the side that opened it. */
  ghost function UnitCost(rows: seq<Row>, t: Target, side: Side): real {
    if Held(rows, t, side) > 0.0 then PaidFor(rows, t, side) / Held(rows, t, side) else 0.0
  }

  /** The event closes part of the book's position: its own number of contracts, or all that is held. */
  ghost function ClosedQty(held: real, qty: real): real {
    if Abs(qty) <= Abs(held) then Abs(qty) else Abs(held)
  }

  /** The live rows of a target on one side: of the contract, or of the stock where the target names that side. */
  ghost function LiveRows(rows: seq<Row>, t: Target, side: Side): seq<Row> {
    if rows == [] then []
    else
      var before, r := LiveRows(rows[..|rows| - 1], t, side), rows[|rows| - 1];
      var meant := match t
                   case Leg(occ) => r.occ == Some(occ)
                   case Entry(symbol, entry) => r.occ == None && r.symbol == symbol && r.side == entry;
      if meant && r.status in {Open, PendingFill} && r.side == side then before + [r] else before
  }

  ghost function Quantity(rows: seq<Row>): real {
    if rows == [] then 0.0 else Quantity(rows[..|rows| - 1]) + rows[|rows| - 1].qty
  }

  /** Quantity times the fill, or the journaled price where there is none yet. */
  ghost function Paid(rows: seq<Row>): real {
    if rows == [] then 0.0
    else
      var r := rows[|rows| - 1];
      Paid(rows[..|rows| - 1]) + Times(r.qty, if r.fill != 0.0 then r.fill else r.price)
  }

  /** What is held, and at what cost, is the sum over those rows. */
  lemma {:induction false} HeldIs(rows: seq<Row>, t: Target, side: Side)
    ensures Held(rows, t, side) == Quantity(LiveRows(rows, t, side))
    ensures PaidFor(rows, t, side) == Paid(LiveRows(rows, t, side))
  {
    if rows != [] {
      var before := LiveRows(rows[..|rows| - 1], t, side);
      HeldIs(rows[..|rows| - 1], t, side);
      assert (before + [rows[|rows| - 1]])[..|before|] == before;
    }
  }

  lemma LiveRowsStep(rows: seq<Row>, t: Target, side: Side)
    requires rows != []
    ensures var before, r := LiveRows(rows[..|rows| - 1], t, side), rows[|rows| - 1];
            LiveRows(rows, t, side) == if Live(r) && Selects(t, r) && r.side == side then before + [r] else before
  {
  }

  /** A flat target has no live rows on any side. */
  lemma {:induction false} FlatIs(rows: seq<Row>, t: Target)
    ensures Flat(rows, t) <==> forall side :: LiveRows(rows, t, side) == []
  {
    if rows != [] {
      var init, r := rows[..|rows| - 1], rows[|rows| - 1];
      FlatIs(init, t);
      forall side ensures LiveRows(rows, t, side) == [] <==>
                            LiveRows(init, t, side) == [] && !(Live(r) && Selects(t, r) && r.side == side) {
        LiveRowsStep(rows, t, side);
      }
      FlatStep(rows, t);
      assert Live(r) && Selects(t, r) ==> LiveRows(rows, t, r.side) != [];
      if Flat(rows, t) {
        assert forall side :: LiveRows(init, t, side) == [];
      } else if Flat(init, t) {
        assert LiveRows(rows, t, r.side) != [];
      } else {
        var side :| LiveRows(init, t, side) != [];
        assert LiveRows(rows, t, side) != [];
      }
    }
  }

  lemma FlatStep(rows: seq<Row>, t: Target)
    requires rows != []
    ensures Flat(rows, t) <==> Flat(rows[..|rows| - 1], t) && !(Live(rows[|rows| - 1]) && Selects(t, rows[|rows| - 1]))
  {
    var init := rows[..|rows| - 1];
    assert rows == init + [rows[|rows| - 1]];
  }

  ghost predicate OptionDue(rows: seq<Row>, e: Event)
    requires e.OptionClose?
  {
    && Due(rows, e.id) && e.occ != "" && e.qty.Some? && e.qty.value != 0.0 && e.readable
    && Abs(Held(rows, Leg(e.occ), Buy) - Held(rows, Leg(e.occ), Sell)) >= 0.5
  }

  /** An option row without a price moves no cash, on either side. */
  lemma NoPriceNoCash(row: Row)
    requires row.price == 0.0 && row.fill == 0.0
    ensures CashFlow(row) == 0.0
  {
  }

  /**
   A book, long or short the contract, books its expiry, assignment or exercise exactly once, at no cash: a long loses
   what the closed contracts cost it, a short keeps what it got for them, a hundred shares a contract, and no live row
   of the contract is left.
   */
  lemma OptionBooks(pid: int, rows: seq<Row>, e: Event)
    requires e.OptionClose?
    ensures var after, t := Step(pid, rows, e), Leg(e.occ);
            var net := Held(rows, t, Buy) - Held(rows, t, Sell);
            if OptionDue(rows, e)
            then var cost := Times(UnitCost(rows, t, if net > 0.0 then Buy else Sell), ClosedQty(net, e.qty.value));
                 && Books(rows, after, e.id, 0.0, Round2(if net > 0.0 then -(cost * 100.0) else cost * 100.0))
                 && Gained(rows, after, if net > 0.0 then Sell else Buy, ClosedQty(net, e.qty.value))
                 && Flat(after, t)
            else after == rows
  {
    var b := Decide(pid, rows, e);
    if b.Booking? {
      NoPriceNoCash(b.row);
      CloseBooks(rows, b.row, Leg(e.occ), 0.0);
    }
  }

  // ----- cash mergers -----

  ghost predicate MergerDue(pid: int, rows: seq<Row>, e: Event)
    requires e.CashMerger?
  {
    && Due(rows, e.id) && e.removed != 0.0 && e.price.Some? && e.dated && Backing(e.readings, e.removed)
    && pid in e.readings.value && e.live.Some?
    && var own := e.readings.value[pid].value;
       && Abs(own) >= 0.5 && Abs(e.live.value - own) <= 0.5
       && Held(rows, Entry(e.symbol, EntryOf(own)), EntryOf(own)) > 0.0
  }

  ghost function EntryOf(own: real): Side {
    if own > 0.0 then Buy else Short
  }

  /** Every listed book could be read, and together they hold the account's quantity to half a share. */
  ghost predicate Backing(readings: Option<Readings>, account: real) {
    && readings.Some? && (forall p :: p in readings.value ==> readings.value[p].Some?)
    && -0.5 <= Total(Values(readings.value)) - account <= 0.5
  }

  lemma BackingIff(readings: Option<Readings>, account: real)
    ensures Backing(readings, account) <==> Attributed(readings, account).Some?
    ensures Backing(readings, account) ==>
              forall pid :: OwnShare(pid, readings, account)
                         == if pid in readings.value then readings.value[pid].value else 0.0
  {
  }

  lemma MergerRowCash(row: Row, price: Price, qty: real)
    requires row.qty == qty > 0.0 && row.price == row.fill == price && row.status.Closed? && row.occ.None?
    requires row.side.Sell? || row.side.Cover?
    ensures CashFlow(row) == if row.side.Sell? then Times(price, qty) else -Times(price, qty)
  {
  }

  /**
   A book that holds the merged stock books the merger exactly once: a long is paid the price for its shares, a short
   pays it, each against what its own entries cost, and no live entry row on its side is left.
   */
  lemma MergerBooks(pid: int, rows: seq<Row>, e: Event)
    requires e.CashMerger?
    ensures var after := Step(pid, rows, e);
            if MergerDue(pid, rows, e)
            then var own := e.readings.value[pid].value;
                 var t := Entry(e.symbol, EntryOf(own));
                 var paid := Times(e.price.value, Abs(own));
                 var gain := Times(e.price.value - UnitCost(rows, t, EntryOf(own)), Abs(own));
                 && Books(rows, after, e.id, if own > 0.0 then paid else -paid,
                          Round2(if own > 0.0 then gain else -gain))
                 && Gained(rows, after, if own > 0.0 then Sell else Cover, Abs(own))
                 && Flat(after, t)
            else after == rows
  {
    BackingIff(e.readings, e.removed);
    var b := Decide(pid, rows, e);
    if b.Booking? {
      var own := e.readings.value[pid].value;
      MergerRowCash(b.row, e.price.value, Abs(own));
      CloseBooks(rows, b.row, Entry(e.symbol, EntryOf(own)), CashFlow(b.row));
    }
  }

  // ----- dividends -----

  /** The broker's amount is a whole number of shares at this rate, to 1.1 cents. */
  ghost predicate WholeAt(amount: real, perShare: real, shares: int) {
    && amount != 0.0 && perShare > 0.0 && shares == RoundHalfEven(amount / perShare)
    && -0.011 <= Times(shares as real, perShare) - amount <= 0.011
  }

  /**
   A book books a dividend exactly once, and only when the amount is a whole number of shares that the books together
   held: its own shares at the rate, rounded to the cent, received when long and paid when short.
   */
  lemma DividendBooks(pid: int, rows: seq<Row>, e: Event)
    requires e.DividendPaid?
    ensures var after := Step(pid, rows, e);
            if && Due(rows, e.id) && e.dated && e.amount.Some?
               && (var n := if e.perShare > 0.0 then RoundHalfEven(e.amount.value / e.perShare) else 0;
                   WholeAt(e.amount.value, e.perShare, n) && Backing(e.readings, n as real))
               && pid in e.readings.value && Abs(e.readings.value[pid].value) >= 0.5
               && Round2(Times(e.readings.value[pid].value, e.perShare)) != 0.0
            then var paid := Round2(Times(e.readings.value[pid].value, e.perShare));
                 Books(rows, after, e.id, paid, paid)
            else after == rows
  {
    var b := Decide(pid, rows, e);
    if e.amount.Some? && AccountQty(e.amount.value, e.perShare).Some? {
      BackingIff(e.readings, AccountQty(e.amount.value, e.perShare).value);
    }
    if b.Booking? {
      CashRowFlow(e.id, e.symbol, b.row.pnl, b.row.pnl);
      AppendBooks(rows, b.row, b.row.pnl);
    }
  }

  // ----- fees -----

  /** A book books its share of a fee exactly once, with the sign of the fee, in cash and in pnl. */
  lemma FeeBooks(pid: int, rows: seq<Row>, e: Event)
    requires e.FeeShare?
    ensures var after, own := Step(pid, rows, e), e.cents as real / 100.0;
            if Due(rows, e.id) && e.net != 0.0 && e.cents > 0
            then Books(rows, after, e.id, if e.net > 0.0 then own else -own, if e.net > 0.0 then own else -own)
            else after == rows
  {
    var b := Decide(pid, rows, e);
    if b.Booking? {
      CashRowFlow(e.id, "FEE", b.row.pnl, b.row.pnl);
      AppendBooks(rows, b.row, b.row.pnl);
    }
  }

  // ----- the MISC rows -----

  ghost predicate Names(m: CP.Misc, g: string) {
    m.MiscEvent? && m.group == g && g != "" && m.symbol != ""
  }

  /** A group stands for the contract that its last event row names, wherever in the batch that is; else for none. */
  lemma {:induction false} GroupsAre(misc: seq<CP.Misc>, g: string, j: nat)
    requires j <= |misc| && forall k :: j <= k < |misc| ==> !Names(misc[k], g)
    requires j > 0 ==> Names(misc[j - 1], g)
    ensures if j == 0 then g !in CP.Groups(misc) else g in CP.Groups(misc) && CP.Groups(misc)[g] == misc[j - 1].symbol
    decreases |misc|
  {
    if misc != [] && j < |misc| {
      GroupsAre(misc[..|misc| - 1], g, j);
    }
  }

  lemma Associate(a: seq<Event>, b: seq<Event>, c: seq<Event>)
    ensures (a + b) + c == a + (b + c)
  {
  }

  lemma {:induction false} MiscConcat(a: seq<CP.Misc>, b: seq<CP.Misc>, groups: map<string, string>)
    ensures CP.MiscEvents(a + b, groups) == CP.MiscEvents(a, groups) + CP.MiscEvents(b, groups)
  {
    if b == [] {
      assert a + b == a;
    } else {
      var init, last := b[..|b| - 1], b[|b| - 1];
      MiscConcat(a, init, groups);
      assert (a + b)[..|a + b| - 1] == a + init && (a + b)[|a + b| - 1] == last;
      Associate(CP.MiscEvents(a, groups), CP.MiscEvents(init, groups), CP.Routed(last, groups));
    }
  }

  lemma MiscSplit(misc: seq<CP.Misc>, i: nat, groups: map<string, string>)
    requires i < |misc|
    ensures CP.MiscEvents(misc, groups)
         == CP.MiscEvents(misc[..i], groups) + CP.Routed(misc[i], groups) + CP.MiscEvents(misc[i + 1..], groups)
  {
    var one := [misc[i]];
    assert misc == misc[..i] + one + misc[i + 1..] && one[..0] == [];
    MiscConcat(misc[..i] + one, misc[i + 1..], groups);
    MiscConcat(misc[..i], one, groups);
    assert CP.MiscEvents(one, groups) == [] + CP.Routed(misc[i], groups);
  }

  /** Every row of the batch that carries the id is a trade of this amount. */
  ghost predicate Pays(misc: seq<CP.Misc>, id: string, amount: real) {
    forall k :: 0 <= k < |misc| && !misc[k].MiscOther? && misc[k].id == id ==>
                  misc[k].MiscTrade? && misc[k].amount == Some(amount)
  }

  lemma {:induction false} MiscSettles(misc: seq<CP.Misc>, groups: map<string, string>, id: string, amount: real)
    requires Pays(misc, id, amount)
    ensures Settles(CP.MiscEvents(misc, groups), id, amount)
  {
    if misc != [] {
      MiscSettles(misc[..|misc| - 1], groups, id, amount);
    }
  }

  lemma RunKeepsActivity(pid: int, rows: seq<Row>, es: seq<Event>, id: string)
    requires SumRows(rows, Mentions(id)) <= 1.0 && HasActivity(rows, id)
    ensures HasActivity(Run(pid, rows, es), id)
  {
    RunBooksOnce(pid, rows, es, id);
    MentionsCount(rows, id);
    MentionsCount(Run(pid, rows, es), id);
  }

  /**
   The cash row of a MISC batch settles the contract that the last event row of its group names, before or after it: a
   book that traded the contract holds the broker's amount for it after the batch, whatever else the batch books.
   */
  lemma MiscTradeSettles(pid: int, rows: seq<Row>, misc: seq<CP.Misc>, i: nat, j: nat, amount: real)
    requires i < |misc| && j < |misc| && misc[i].MiscTrade? && Names(misc[j], misc[i].group)
    requires forall k :: j < k < |misc| ==> !Names(misc[k], misc[i].group)
    requires misc[i].id != "" && misc[i].readable && amount != 0.0 && misc[i].amount == Some(amount)
    requires Pays(misc, misc[i].id, amount) && !HasActivity(rows, misc[i].id) && HasTraded(rows, misc[j].symbol)
    ensures SumRows(Run(pid, rows, CP.MiscEvents(misc, CP.Groups(misc))), CashFor(misc[i].id)) == amount
  {
    var groups, id := CP.Groups(misc), misc[i].id;
    var before, rest := CP.MiscEvents(misc[..i], groups), CP.MiscEvents(misc[i + 1..], groups);
    var e := Settlement(id, Some(amount), Some(misc[j].symbol), true);
    GroupsAre(misc, misc[i].group, j + 1);
    MiscSplit(misc, i, groups);
    assert CP.Routed(misc[i], groups) == [e];
    MiscSettles(misc, groups, id, amount);
    RunSettles(pid, rows, before + [e] + rest, id, amount);
    OwnerBooksSettlement(pid, rows, before, e);
    CP.RunConcat(pid, rows, before, [e]);
    CP.RunOne(pid, Run(pid, rows, before), e);
    CP.RunConcat(pid, rows, before + [e], rest);
    MentionsCount(rows, id);
    RunBooksOnce(pid, rows, before + [e], id);
    RunKeepsActivity(pid, Run(pid, rows, before + [e]), rest, id);
  }

  /** The event row of a MISC batch closes its contract like the typed event does. */
  lemma MiscEventCloses(pid: int, rows: seq<Row>, m: CP.Misc, groups: map<string, string>)
    requires m.MiscEvent? && OptionDue(rows, OptionClose(m.id, m.symbol, m.qty, m.shaped, m.readable))
    ensures var after := Run(pid, rows, CP.MiscEvents([m], groups));
            HasActivity(after, m.id) && Flat(after, Leg(m.symbol))
  {
    var e := OptionClose(m.id, m.symbol, m.qty, m.shaped, m.readable);
    assert [m][..0] == [] && [] + [e] == [e];
    assert CP.MiscEvents([m], groups) == [e];
    CP.RunOne(pid, rows, e);
    CloseIsBooked(pid, rows, e);
  }

  lemma CloseIsBooked(pid: int, rows: seq<Row>, e: Event)
    requires e.OptionClose? && OptionDue(rows, e)
    ensures HasActivity(Step(pid, rows, e), e.id) && Flat(Step(pid, rows, e), Leg(e.occ))
  {
    OptionBooks(pid, rows, e);
  }
}

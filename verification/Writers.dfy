/**
 activities_capture.py: the writers that turn one broker activity into a row of THIS profile's book. A writer
 decides on a booking from the current table; applying it appends the row and, for a broker-initiated close,
 flips the origin rows.
 */
module Writers {
  import opened Money
  import opened Sums
  import opened Journal

  type Price = x: real | x >= 0.0

  /** What each of the account's books held of a stock at an event's snapshot; None marks an unreadable book. */
  type Readings = map<int, Option<real>>

  /**
   One broker activity as one profile's pass sees it; None marks a field or a read that failed. A stock event carries
   the pass's readings of the account's books, or None when the books cannot be listed.
   */
  datatype Event =
    | OptionClose(id: string, occ: string, qty: Option<real>, shaped: bool, readable: bool)
    | Settlement(id: string, amount: Option<real>, leg: Option<string>, readable: bool)
    | DividendPaid(id: string, symbol: string, amount: Option<real>, perShare: real, dated: bool,
                   readings: Option<Readings>)
    | CashMerger(id: string, symbol: string, removed: real, price: Option<Price>, dated: bool,
                 readings: Option<Readings>, live: Option<real>)
    | FeeShare(id: string, net: real, cents: int)

  datatype Booking = Nothing | Booking(row: Row, closes: Option<Target>)

  function Apply(rows: seq<Row>, b: Booking): seq<Row> {
    match b
    case Nothing => rows
    case Booking(row, None) => rows + [row]
    case Booking(row, Some(t)) => CloseLive(rows + [row], t)
  }

  // ----- the split of a stock event -----

  function Values(qty: Readings): (r: Amounts)
    ensures r.Keys == qty.Keys
  {
    map p | p in qty :: if qty[p].Some? then qty[p].value else 0.0
  }

  /** The shares of an event, or None when a book is unreadable or the books do not sum to the broker's quantity. */
  ghost function Attributed(readings: Option<Readings>, accountQty: real): Option<Amounts> {
    if readings.None? then None
    else
      var qty := readings.value;
      if (exists p :: p in qty && qty[p].None?) || Abs(Total(Values(qty)) - accountQty) > 0.5 then None
      else Some(Values(qty))
  }

  /** `shares.get(profile_id, 0.0)`; nothing of an event that is not attributed. */
  ghost function OwnShare(pid: int, readings: Option<Readings>, accountQty: real): real {
    var shares := Attributed(readings, accountQty);
    if shares.Some? && pid in shares.value then shares.value[pid] else 0.0
  }

  // ----- the decisions -----

  function CashRow(id: string, symbol: string, amount: real, pnl: real): Row {
    Row(id, if amount < 0.0 then CashDebit else Dividend, symbol, None, 1.0, Abs(amount), 0.0, Closed, pnl)
  }

  /** A cash-only row moves its signed amount. */
  lemma CashRowFlow(id: string, symbol: string, amount: real, pnl: real)
    ensures CashFlow(CashRow(id, symbol, amount, pnl)) == amount
  {
    var r := CashRow(id, symbol, amount, pnl);
    assert Times(1.0, Abs(amount)) == Abs(amount);
  }

  /** `_own_occ_net` */
  function OwnNet(rows: seq<Row>, occ: string): real {
    SumRows(rows, SideQty(Leg(occ), Buy)) - SumRows(rows, SideQty(Leg(occ), Sell))
  }

  /** `_own_occ_avg_premium`, and `_own_stock_avg_entry` where the quantity is positive. */
  function Average(rows: seq<Row>, t: Target, side: Side): real {
    var qty := SumRows(rows, SideQty(t, side));
    if qty > 0.0 then SumRows(rows, SideNotional(t, side)) / qty else 0.0
  }

  function Min(a: real, b: real): real {
    if a <= b then a else b
  }

  /** The contracts the event removes from this book. */
  function Removed(rows: seq<Row>, occ: string, qty: real): real {
    Min(Abs(qty), Abs(OwnNet(rows, occ)))
  }

  function EntrySide(net: real): Side {
    if net > 0.0 then Buy else Sell
  }

  function Premium(rows: seq<Row>, occ: string): real {
    Average(rows, Leg(occ), EntrySide(OwnNet(rows, occ)))
  }

  function DecideOption(rows: seq<Row>, id: string, occ: string, qty: Option<real>, shaped: bool, readable: bool)
    : Booking
  {
    if id == "" || HasActivity(rows, id) || occ == "" || qty.None? || qty.value == 0.0 || !readable then Nothing
    else
      var net := OwnNet(rows, occ);
      if Abs(net) < 0.5 then Nothing
      else
        var gross := Times(Premium(rows, occ), Removed(rows, occ, qty.value)) * 100.0;
        Booking(Row(id, if net > 0.0 then Sell else Buy, occ, if shaped then Some(occ) else None,
                    Removed(rows, occ, qty.value), 0.0, 0.0, Closed,
                    Round2(if net > 0.0 then -gross else gross)),
                Some(Leg(occ)))
  }

  predicate Owns(rows: seq<Row>, occ: string) {
    exists i :: 0 <= i < |rows| && rows[i].occ == Some(occ)
                && !(rows[i].status.Canceled? || rows[i].status.Expired? || rows[i].status.Rejected?)
  }

  function DecideSettlement(rows: seq<Row>, id: string, net: Option<real>, occ: Option<string>, readable: bool)
    : Booking
  {
    if id == "" || HasActivity(rows, id) || net.None? || net.value == 0.0 || occ.None? || !readable
       || !Owns(rows, occ.value) then Nothing
    else Booking(CashRow(id, occ.value, net.value, Round2(net.value)), None)
  }

  /** The account's whole-share position behind a dividend, or None when the writer refuses it. */
  function AccountQty(amount: real, perShare: real): Option<real> {
    if amount == 0.0 || perShare <= 0.0 then None
    else
      var qty := WholeQty(amount, perShare);
      if Abs(Times(qty, perShare) - amount) > 0.011 then None else Some(qty)
  }

  /** `float(round(amount / per_share))` */
  function WholeQty(amount: real, perShare: real): real
    requires perShare > 0.0
  {
    RoundHalfEven(amount / perShare) as real
  }

  function OwnDividend(own: real, perShare: real): real {
    if Abs(own) < 0.5 then 0.0 else Round2(Times(own, perShare))
  }

  ghost function DecideDividend(pid: int, rows: seq<Row>, id: string, symbol: string, amount: Option<real>,
                                perShare: real, dated: bool, readings: Option<Readings>): Booking
  {
    if id == "" || HasActivity(rows, id) || amount.None? || !dated || AccountQty(amount.value, perShare).None?
    then Nothing
    else
      var own := OwnDividend(OwnShare(pid, readings, AccountQty(amount.value, perShare).value), perShare);
      if own == 0.0 then Nothing else Booking(CashRow(id, symbol, own, own), None)
  }

  function StockSide(own: real): Side {
    if own > 0.0 then Buy else Short
  }

  ghost function DecideMerger(pid: int, rows: seq<Row>, id: string, symbol: string, removed: real,
                              price: Option<Price>, dated: bool, readings: Option<Readings>, live: Option<real>)
    : Booking
  {
    if id == "" || HasActivity(rows, id) || removed == 0.0 || price.None? || !dated then Nothing
    else
      var own := OwnShare(pid, readings, removed);
      var t := Entry(symbol, StockSide(own));
      if Abs(own) < 0.5 || live.None? || Abs(live.value - own) > 0.5
         || SumRows(rows, SideQty(t, t.side)) <= 0.0 then Nothing
      else
        var gain := Times(price.value - Average(rows, t, t.side), Abs(own));
        Booking(Row(id, if own > 0.0 then Sell else Cover, symbol, None, Abs(own), price.value, price.value,
                    Closed, Round2(if own > 0.0 then gain else -gain)),
                Some(t))
  }

  function DecideFee(rows: seq<Row>, id: string, net: real, cents: int): Booking {
    if id == "" || HasActivity(rows, id) || net == 0.0 || cents <= 0 then Nothing
    else
      var signed := if net < 0.0 then -Cents(cents) else Cents(cents);
      Booking(CashRow(id, "FEE", signed, signed), None)
  }

  ghost function Decide(pid: int, rows: seq<Row>, e: Event): Booking {
    match e
    case OptionClose(id, occ, qty, shaped, readable) => DecideOption(rows, id, occ, qty, shaped, readable)
    case Settlement(id, amount, leg, readable) => DecideSettlement(rows, id, amount, leg, readable)
    case DividendPaid(id, symbol, amount, perShare, dated, readings) =>
      DecideDividend(pid, rows, id, symbol, amount, perShare, dated, readings)
    case CashMerger(id, symbol, removed, price, dated, readings, live) =>
      DecideMerger(pid, rows, id, symbol, removed, price, dated, readings, live)
    case FeeShare(id, net, cents) => DecideFee(rows, id, net, cents)
  }

  ghost function Step(pid: int, rows: seq<Row>, e: Event): seq<Row> {
    Apply(rows, Decide(pid, rows, e))
  }

  ghost function Run(pid: int, rows: seq<Row>, es: seq<Event>): seq<Row> {
    if es == [] then rows else Step(pid, Run(pid, rows, es[..|es| - 1]), es[|es| - 1])
  }

  // ----- the equity identity -----

  /** Σ pnl − cash moved − open cost: constant exactly when initial + Σ pnl == cash + cost basis is preserved. */
  function Drift(rows: seq<Row>): real {
    SumRows(rows, PnlLens) - Cash(rows) - SumRows(rows, OpenCost)
  }

  /** What a booking adds to the drift. */
  function Leak(rows: seq<Row>, b: Booking): real {
    match b
    case Nothing => 0.0
    case Booking(row, closes) =>
      row.pnl - CashFlow(row) + if closes.Some? then SumRows(rows, TargetCost(closes.value)) else 0.0
  }

  lemma AppendDrift(rows: seq<Row>, row: Row)
    requires row.status.Closed?
    ensures Drift(rows + [row]) == Drift(rows) + row.pnl - CashFlow(row)
  {
    SumAppend(rows, row, PnlLens);
    SumAppend(rows, row, CashLens);
    SumAppend(rows, row, OpenCost);
  }

  lemma CloseDrift(rows: seq<Row>, t: Target)
    ensures Drift(CloseLive(rows, t)) == Drift(rows) + SumRows(rows, TargetCost(t))
  {
    CloseLiveKeeps(rows, t, CashLens);
    CloseLiveKeeps(rows, t, PnlLens);
    CloseLiveCost(rows, t);
  }

  lemma ApplyDrift(rows: seq<Row>, b: Booking)
    requires b.Booking? ==> b.row.status.Closed?
    ensures Drift(Apply(rows, b)) == Drift(rows) + Leak(rows, b)
  {
    if b.Booking? {
      AppendDrift(rows, b.row);
      if b.closes.Some? {
        SumAppend(rows, b.row, TargetCost(b.closes.value));
        CloseDrift(rows + [b.row], b.closes.value);
      }
    }
  }

  lemma DecideClosed(pid: int, rows: seq<Row>, e: Event)
    ensures Decide(pid, rows, e).Booking? ==> Decide(pid, rows, e).row.status.Closed?
    ensures Decide(pid, rows, e).Booking? ==> Decide(pid, rows, e).row.orderId == e.id
    ensures Decide(pid, rows, e).Booking? ==> !HasActivity(rows, e.id)
  {
  }

  /** The cost basis an event leaves unexplained, before rounding: zero when it takes the whole leg with it. */
  ghost function Unexplained(pid: int, rows: seq<Row>, e: Event): real {
    if Decide(pid, rows, e).Nothing? then 0.0
    else match e
      case OptionClose(id, occ, qty, _, _) =>
        var taken := Times(Premium(rows, occ), Removed(rows, occ, qty.value));
        100.0 * (NetNotional(rows, Leg(occ)) + if OwnNet(rows, occ) > 0.0 then -taken else taken)
      case CashMerger(id, symbol, removed, _, _, readings, _) =>
        var own := OwnShare(pid, readings, removed);
        var t := Entry(symbol, StockSide(own));
        var left := Times(Average(rows, t, t.side), SumRows(rows, SideQty(t, t.side)) - Abs(own));
        if own > 0.0 then left else -left
      case _ => 0.0
  }

  lemma AverageTimesQty(rows: seq<Row>, t: Target, side: Side)
    requires SumRows(rows, SideQty(t, side)) > 0.0
    ensures Times(Average(rows, t, side), SumRows(rows, SideQty(t, side))) == SumRows(rows, SideNotional(t, side))
  {
  }

  lemma OptionLeak(rows: seq<Row>, id: string, occ: string, qty: Option<real>, shaped: bool, readable: bool)
    requires DecideOption(rows, id, occ, qty, shaped, readable).Booking?
    ensures var b := DecideOption(rows, id, occ, qty, shaped, readable);
            var taken := Times(Premium(rows, occ), Removed(rows, occ, qty.value));
            Abs(Leak(rows, b)
                - 100.0 * (NetNotional(rows, Leg(occ)) + if OwnNet(rows, occ) > 0.0 then -taken else taken)) <= 0.005
  {
    TargetCostBySide(rows, Leg(occ));
  }

  lemma MergerLeak(pid: int, rows: seq<Row>, e: Event)
    requires e.CashMerger? && Decide(pid, rows, e).Booking?
    ensures Abs(Leak(rows, Decide(pid, rows, e)) - Unexplained(pid, rows, e)) <= 0.005
  {
    var own, px := OwnShare(pid, e.readings, e.removed), e.price.value;
    var t := Entry(e.symbol, StockSide(own));
    var avg, held := Average(rows, t, t.side), SumRows(rows, SideQty(t, t.side));
    var b := Decide(pid, rows, e);
    TargetCostBySide(rows, t);
    EntryIsOneSided(rows, t, if own > 0.0 then Short else Buy);
    EntryIsOneSided(rows, t, Sell);
    EntryIsOneSided(rows, t, Cover);
    AverageTimesQty(rows, t, t.side);
    MergerCash(b.row, px, Abs(own));
    MergerAlgebra(px, avg, Abs(own), held);
  }

  lemma MergerCash(row: Row, px: real, qty: real)
    requires row.qty == qty > 0.0 && row.price == row.fill == px >= 0.0 && row.status.Closed? && row.occ.None?
    requires row.side.Sell? || row.side.Cover?
    ensures CashFlow(row) == if row.side.Sell? then Times(px, qty) else -Times(px, qty)
  {
  }

  lemma MergerAlgebra(px: real, avg: real, qty: real, held: real)
    ensures Times(px - avg, qty) == Times(px, qty) - Times(avg, qty)
    ensures Times(avg, held - qty) == Times(avg, held) - Times(avg, qty)
  {
  }

  /** Up to half a cent of rounding, a booking leaks exactly the unexplained cost basis. */
  lemma EventLeak(pid: int, rows: seq<Row>, e: Event)
    ensures Abs(Leak(rows, Decide(pid, rows, e)) - Unexplained(pid, rows, e)) <= 0.005
    ensures Decide(pid, rows, e).Nothing? ==> Leak(rows, Decide(pid, rows, e)) == Unexplained(pid, rows, e) == 0.0
  {
    if Decide(pid, rows, e).Booking? {
      match e
      case OptionClose(id, occ, qty, shaped, readable) => OptionLeak(rows, id, occ, qty, shaped, readable);
      case Settlement(_, amount, _, _) =>
      case DividendPaid(_, _, _, _, _, _) =>
      case CashMerger(_, _, _, _, _, _, _) => MergerLeak(pid, rows, e);
      case FeeShare(_, _, _) =>
    }
  }

  /** How far the drift moved beyond what is unexplained. */
  function Gap(before: seq<Row>, after: seq<Row>, unexplained: real): real {
    Drift(after) - Drift(before) - unexplained
  }

  lemma GapAdd(a: seq<Row>, b: seq<Row>, c: seq<Row>, u: real, v: real, m: int, n: int)
    requires Within(Gap(a, b, u), m) && Within(Gap(b, c, v), n)
    ensures Within(Gap(a, c, u + v), m + n)
  {
  }

  lemma StepDrift(pid: int, rows: seq<Row>, e: Event)
    ensures |Step(pid, rows, e)| == |rows| || |Step(pid, rows, e)| == |rows| + 1
    ensures Within(Gap(rows, Step(pid, rows, e), Unexplained(pid, rows, e)), |Step(pid, rows, e)| - |rows|)
  {
    DecideClosed(pid, rows, e);
    ApplyDrift(rows, Decide(pid, rows, e));
    EventLeak(pid, rows, e);
  }

  ghost function RunUnexplained(pid: int, rows: seq<Row>, es: seq<Event>): real {
    if es == [] then 0.0
    else
      var init := es[..|es| - 1];
      RunUnexplained(pid, rows, init) + Unexplained(pid, Run(pid, rows, init), es[|es| - 1])
  }

  /**
   Equity identity over any run of the five writers: initial + Σ pnl − cash − cost basis moves by the unexplained
   basis of the closes in the run and by at most half a cent per booked row.
   */
  lemma {:induction false} RunKeepsIdentity(pid: int, rows: seq<Row>, es: seq<Event>)
    ensures |Run(pid, rows, es)| >= |rows|
    ensures Within(Gap(rows, Run(pid, rows, es), RunUnexplained(pid, rows, es)), |Run(pid, rows, es)| - |rows|)
  {
    if es != [] {
      var init, e := es[..|es| - 1], es[|es| - 1];
      var mid := Run(pid, rows, init);
      RunKeepsIdentity(pid, rows, init);
      StepDrift(pid, mid, e);
      GapAdd(rows, mid, Step(pid, mid, e), RunUnexplained(pid, rows, init), Unexplained(pid, mid, e),
             |mid| - |rows|, |Step(pid, mid, e)| - |mid|);
    }
  }

  // ----- exactly when a close keeps the identity -----

  function Other(side: Side): Side {
    if side.Buy? then Sell else Buy
  }

  /** The live rows of the leg all carry the given side. */
  ghost predicate OneSided(rows: seq<Row>, t: Target, side: Side) {
    forall i :: 0 <= i < |rows| && Live(rows[i]) && Selects(t, rows[i]) ==> rows[i].side == side
  }

  lemma {:induction false} OneSidedSums(rows: seq<Row>, t: Target, side: Side, other: Side)
    requires OneSided(rows, t, side) && other != side
    ensures SumRows(rows, SideQty(t, other)) == 0.0 && SumRows(rows, SideNotional(t, other)) == 0.0
  {
    if rows != [] {
      OneSidedSums(rows[..|rows| - 1], t, side, other);
    }
  }

  /** The contracts an option event leaves in the leg, at the average premium. */
  function Uncovered(rows: seq<Row>, occ: string, qty: real): real {
    Times(Premium(rows, occ), Abs(OwnNet(rows, occ)) - Removed(rows, occ, qty))
  }

  /** What the rows that offset the entries cost against the average premium. */
  function Offset(rows: seq<Row>, occ: string): real {
    var other := Other(EntrySide(OwnNet(rows, occ)));
    Times(Premium(rows, occ), SumRows(rows, SideQty(Leg(occ), other))) - SumRows(rows, SideNotional(Leg(occ), other))
  }

  /** Notional of the leg under the two sides that its net does not count. */
  function Uncounted(rows: seq<Row>, occ: string): real {
    SumRows(rows, SideNotional(Leg(occ), Cover)) - SumRows(rows, SideNotional(Leg(occ), Short))
  }

  /**
   What an option close leaves unexplained: the contracts it does not cover, what the offsetting rows cost against the
   average premium, and rows under sides that the net does not count.
   */
  lemma OptionUnexplained(pid: int, rows: seq<Row>, e: Event)
    requires e.OptionClose? && Decide(pid, rows, e).Booking?
    requires SumRows(rows, SideQty(Leg(e.occ), Other(EntrySide(OwnNet(rows, e.occ))))) >= 0.0
    ensures var left := Uncovered(rows, e.occ, e.qty.value) + Offset(rows, e.occ);
            Unexplained(pid, rows, e)
            == 100.0 * ((if OwnNet(rows, e.occ) > 0.0 then left else -left) + Uncounted(rows, e.occ))
  {
    var t, net := Leg(e.occ), OwnNet(rows, e.occ);
    var entry := EntrySide(net);
    var qe, qo := SumRows(rows, SideQty(t, entry)), SumRows(rows, SideQty(t, Other(entry)));
    var premium, removed := Premium(rows, e.occ), Removed(rows, e.occ, e.qty.value);
    AverageTimesQty(rows, t, entry);
    assert Abs(net) == qe - qo;
    Distribute(premium, Abs(net) - removed, removed);
    Distribute(premium, Abs(net), qo);
  }

  /**
   An option close keeps the identity if and only if what it leaves uncovered and what the offsetting rows cost cancel,
   for any mix of rows in the leg.
   */
  lemma OptionKeepsIdentityIff(pid: int, rows: seq<Row>, e: Event)
    requires e.OptionClose? && Decide(pid, rows, e).Booking?
    requires SumRows(rows, SideQty(Leg(e.occ), Other(EntrySide(OwnNet(rows, e.occ))))) >= 0.0
    ensures Unexplained(pid, rows, e) == 0.0
       <==> Uncovered(rows, e.occ, e.qty.value) + Offset(rows, e.occ)
            == if OwnNet(rows, e.occ) > 0.0 then -Uncounted(rows, e.occ) else Uncounted(rows, e.occ)
  {
    OptionUnexplained(pid, rows, e);
  }

  /** A one-sided leg keeps the identity exactly when the event covers the position or the position cost nothing. */
  lemma OneSidedKeepsIdentityIff(pid: int, rows: seq<Row>, e: Event)
    requires e.OptionClose? && Decide(pid, rows, e).Booking?
    requires OneSided(rows, Leg(e.occ), EntrySide(OwnNet(rows, e.occ)))
    ensures Unexplained(pid, rows, e) == 0.0
       <==> Abs(e.qty.value) >= Abs(OwnNet(rows, e.occ)) || Premium(rows, e.occ) == 0.0
  {
    var t, net := Leg(e.occ), OwnNet(rows, e.occ);
    var entry := EntrySide(net);
    OneSidedSums(rows, t, entry, Other(entry));
    OneSidedSums(rows, t, entry, Short);
    OneSidedSums(rows, t, entry, Cover);
    OptionKeepsIdentityIff(pid, rows, e);
    TimesIsZero(Premium(rows, e.occ), Abs(net) - Removed(rows, e.occ, e.qty.value));
    TimesIsZero(Premium(rows, e.occ), 0.0);
  }

  lemma TimesIsZero(a: real, b: real)
    ensures Times(a, b) == 0.0 <==> a == 0.0 || b == 0.0
  {
    if a != 0.0 && b != 0.0 {
      assert a > 0.0 && b > 0.0 ==> a * b > 0.0;
      assert a > 0.0 && b < 0.0 ==> a * -b > 0.0;
      assert a < 0.0 && b > 0.0 ==> -a * b > 0.0;
      assert a < 0.0 && b < 0.0 ==> -a * -b > 0.0;
    }
  }

  /** A cash merger keeps the identity exactly when it removes what the live entry rows hold, or they cost nothing. */
  lemma MergerKeepsIdentityIff(pid: int, rows: seq<Row>, e: Event)
    requires e.CashMerger? && Decide(pid, rows, e).Booking?
    ensures var own := OwnShare(pid, e.readings, e.removed);
            var t := Entry(e.symbol, StockSide(own));
            Unexplained(pid, rows, e) == 0.0
            <==> SumRows(rows, SideQty(t, t.side)) == Abs(own) || Average(rows, t, t.side) == 0.0
  {
    var own := OwnShare(pid, e.readings, e.removed);
    var t := Entry(e.symbol, StockSide(own));
    TimesIsZero(Average(rows, t, t.side), SumRows(rows, SideQty(t, t.side)) - Abs(own));
  }

  /** The guard a caller could check before a close: it takes the whole of a one-sided position. */
  ghost predicate TakesAll(pid: int, rows: seq<Row>, e: Event) {
    match e
    case OptionClose(_, occ, qty, _, _) =>
      && OneSided(rows, Leg(occ), EntrySide(OwnNet(rows, occ)))
      && (qty.Some? ==> Abs(qty.value) >= Abs(OwnNet(rows, occ)))
    case CashMerger(_, symbol, removed, _, _, readings, _) =>
      var own := OwnShare(pid, readings, removed);
      own != 0.0 ==> SumRows(rows, SideQty(Entry(symbol, StockSide(own)), StockSide(own))) == Abs(own)
    case _ => true
  }

  /** Every event of the run that books anything does. */
  ghost predicate RunTakesAll(pid: int, rows: seq<Row>, es: seq<Event>) {
    forall i :: 0 <= i < |es| ==>
                  (Decide(pid, Run(pid, rows, es[..i]), es[i]).Booking? ==>
                     TakesAll(pid, Run(pid, rows, es[..i]), es[i]))
  }

  lemma TakesAllExplains(pid: int, rows: seq<Row>, e: Event)
    requires Decide(pid, rows, e).Booking? ==> TakesAll(pid, rows, e)
    ensures Unexplained(pid, rows, e) == 0.0
  {
    if Decide(pid, rows, e).Booking? {
      if e.OptionClose? {
        OneSidedKeepsIdentityIff(pid, rows, e);
      } else if e.CashMerger? {
        MergerKeepsIdentityIff(pid, rows, e);
      }
    }
  }

  /** In a run whose closes take whole one-sided positions the identity holds to half a cent per booked row. */
  lemma {:induction false} CleanRunKeepsIdentity(pid: int, rows: seq<Row>, es: seq<Event>)
    requires RunTakesAll(pid, rows, es)
    ensures RunUnexplained(pid, rows, es) == 0.0
    ensures Within(Drift(Run(pid, rows, es)) - Drift(rows), |Run(pid, rows, es)| - |rows|)
  {
    RunKeepsIdentity(pid, rows, es);
    if es != [] {
      var init := es[..|es| - 1];
      assert forall i :: 0 <= i < |init| ==> init[..i] == es[..i] && init[i] == es[i];
      CleanRunKeepsIdentity(pid, rows, init);
      TakesAllExplains(pid, Run(pid, rows, init), es[|es| - 1]);
    }
  }

  /** Two contracts bought at 3.00 and one sold at 1.00 in the same leg: the expiry leaves $200 unexplained. */
  lemma TwoSidedLegBreaksIdentity(occ: string, id: string)
    requires occ != "" && id != "" && id != "b" && id != "s"
    ensures var rows := [Row("b", Buy, "X", Some(occ), 2.0, 3.0, 0.0, Open, 0.0),
                         Row("s", Sell, "X", Some(occ), 1.0, 1.0, 0.0, Open, 0.0)];
            Unexplained(0, rows, OptionClose(id, occ, Some(-1.0), true, true)) == 200.0
  {
    var b := Row("b", Buy, "X", Some(occ), 2.0, 3.0, 0.0, Open, 0.0);
    var s := Row("s", Sell, "X", Some(occ), 1.0, 1.0, 0.0, Open, 0.0);
    var t := Leg(occ);
    TwoRows(b, s, SideQty(t, Buy));
    TwoRows(b, s, SideQty(t, Sell));
    TwoRows(b, s, SideNotional(t, Buy));
    TwoRows(b, s, SideNotional(t, Sell));
    TwoRows(b, s, SideNotional(t, Cover));
    TwoRows(b, s, SideNotional(t, Short));
    assert Notional(b) == 6.0 && Notional(s) == 1.0;
    assert OwnNet([b, s], occ) == 1.0;
    assert Premium([b, s], occ) == 3.0;
    assert Times(3.0, 1.0) == 3.0;
  }

  lemma TwoRows(b: Row, s: Row, lens: Lens)
    ensures SumRows([b, s], lens) == Amount(lens, b) + Amount(lens, s)
  {
    assert [b, s] == ([] + [b]) + [s];
    SumAppend([], b, lens);
    SumAppend([b], s, lens);
  }

  // ----- exactly once -----

  lemma ApplyMentions(rows: seq<Row>, b: Booking, id: string)
    ensures SumRows(Apply(rows, b), Mentions(id))
         == SumRows(rows, Mentions(id)) + if b.Booking? && id == b.row.orderId then 1.0 else 0.0
  {
    match b
    case Nothing =>
    case Booking(row, None) => SumAppend(rows, row, Mentions(id));
    case Booking(row, Some(t)) =>
      SumAppend(rows, row, Mentions(id));
      CloseLiveKeeps(rows + [row], t, Mentions(id));
  }

  /** However often passes repeat, refuse or defer, a journal never holds two rows for one activity id. */
  lemma {:induction false} RunBooksOnce(pid: int, rows: seq<Row>, es: seq<Event>, id: string)
    requires SumRows(rows, Mentions(id)) <= 1.0
    ensures SumRows(rows, Mentions(id)) <= SumRows(Run(pid, rows, es), Mentions(id)) <= 1.0
  {
    if es != [] {
      var init, e := es[..|es| - 1], es[|es| - 1];
      var mid := Run(pid, rows, init);
      RunBooksOnce(pid, rows, init, id);
      DecideClosed(pid, mid, e);
      ApplyMentions(mid, Decide(pid, mid, e), id);
      MentionsCount(mid, id);
    }
  }

  lemma StepFlat(pid: int, rows: seq<Row>, e: Event, t: Target)
    ensures Flat(rows, t) ==> Flat(Step(pid, rows, e), t)
    ensures e.OptionClose? && Decide(pid, rows, e).Booking? ==> Flat(Step(pid, rows, e), Leg(e.occ))
  {
    DecideClosed(pid, rows, e);
    var b := Decide(pid, rows, e);
    if b.Booking? && b.closes.Some? {
      CloseLiveFlattens(rows + [b.row], b.closes.value, t);
    }
  }

  /** What happens to a book between two events: other activities, and trades. */
  datatype Move = Booked(event: Event) | Traded(row: Row)

  ghost function Play(pid: int, rows: seq<Row>, moves: seq<Move>): seq<Row> {
    if moves == [] then rows
    else
      var before := Play(pid, rows, moves[..|moves| - 1]);
      match moves[|moves| - 1]
      case Booked(e) => Step(pid, before, e)
      case Traded(row) => before + [row]
  }

  /** No trade opens a row of the target. */
  ghost predicate Untraded(moves: seq<Move>, t: Target) {
    forall i :: 0 <= i < |moves| && moves[i].Traded? ==> !(Live(moves[i].row) && Selects(t, moves[i].row))
  }

  lemma {:induction false} PlayFlat(pid: int, rows: seq<Row>, moves: seq<Move>, t: Target)
    requires Flat(rows, t) && Untraded(moves, t)
    ensures Flat(Play(pid, rows, moves), t)
  {
    if moves != [] {
      PlayFlat(pid, rows, moves[..|moves| - 1], t);
      if moves[|moves| - 1].Booked? {
        StepFlat(pid, Play(pid, rows, moves[..|moves| - 1]), moves[|moves| - 1].event, t);
      }
    }
  }

  /**
   Once an option event has closed a leg, no later event for the same contract books anything, whatever its id and
   whatever other activities and trades lie between, until a trade opens the leg again: the typed and the MISC copy of
   one event close the leg once.
   */
  lemma LegClosesOnce(pid: int, rows: seq<Row>, first: Event, moves: seq<Move>, second: Event)
    requires first.OptionClose? && second.OptionClose? && first.occ == second.occ
    requires Decide(pid, rows, first).Booking? && Untraded(moves, Leg(first.occ))
    ensures Decide(pid, Play(pid, Step(pid, rows, first), moves), second).Nothing?
  {
    var t, done := Leg(first.occ), Play(pid, Step(pid, rows, first), moves);
    StepFlat(pid, rows, first, t);
    PlayFlat(pid, Step(pid, rows, first), moves, t);
    FlatHasNoQty(done, t, Buy);
    FlatHasNoQty(done, t, Sell);
  }

  // ----- ownership -----

  /**
   A book that never traded the contract never books an event or a settlement of it, whatever else its passes
   book: account-level option events stay with their owner.
   */
  lemma {:induction false} ForeignBookBooksNothing(pid: int, rows: seq<Row>, es: seq<Event>, occ: string)
    requires forall i :: 0 <= i < |rows| ==> rows[i].occ != Some(occ)
    ensures forall i :: 0 <= i < |Run(pid, rows, es)| ==> Run(pid, rows, es)[i].occ != Some(occ)
    ensures forall e: Event :: (e.OptionClose? && e.occ == occ) || (e.Settlement? && e.leg == Some(occ)) ==>
                                 Decide(pid, Run(pid, rows, es), e).Nothing?
  {
    var t, done := Leg(occ), Run(pid, rows, es);
    if es != [] {
      var mid, e := Run(pid, rows, es[..|es| - 1]), es[|es| - 1];
      ForeignBookBooksNothing(pid, rows, es[..|es| - 1], occ);
      ForeignApply(mid, Decide(pid, mid, e), occ);
    }
    assert Flat(done, t);
    FlatHasNoQty(done, t, Buy);
    FlatHasNoQty(done, t, Sell);
  }

  lemma ForeignApply(rows: seq<Row>, b: Booking, occ: string)
    requires forall i :: 0 <= i < |rows| ==> rows[i].occ != Some(occ)
    requires b.Booking? ==> b.row.occ != Some(occ)
    ensures forall i :: 0 <= i < |Apply(rows, b)| ==> Apply(rows, b)[i].occ != Some(occ)
  {
    if b.Booking? && b.closes.Some? {
      forall i | 0 <= i < |Apply(rows, b)| ensures Apply(rows, b)[i].occ != Some(occ) {
        CloseLiveAt(rows + [b.row], b.closes.value, i);
      }
    }
  }

  lemma OwnsApply(rows: seq<Row>, b: Booking, occ: string)
    requires Owns(rows, occ)
    ensures Owns(Apply(rows, b), occ)
  {
    if b.Booking? {
      var i :| 0 <= i < |rows| && rows[i].occ == Some(occ)
               && !(rows[i].status.Canceled? || rows[i].status.Expired? || rows[i].status.Rejected?);
      assert (rows + [b.row])[i] == rows[i];
      if b.closes.Some? {
        CloseLiveAt(rows + [b.row], b.closes.value, i);
        assert Apply(rows, b)[i].occ == Some(occ);
      }
    }
  }

  /**
   Closing the leg does not lose its cash: a book that owns a contract still books the settlement after any run,
   once, unless it already has.
   */
  lemma {:induction false} OwnerBooksSettlement(pid: int, rows: seq<Row>, es: seq<Event>, e: Event)
    requires e.Settlement? && e.id != "" && e.readable && e.leg.Some?
    requires e.amount.Some? && e.amount.value != 0.0
    requires Owns(rows, e.leg.value)
    ensures Owns(Run(pid, rows, es), e.leg.value)
    ensures Decide(pid, Run(pid, rows, es), e).Booking? <==> !HasActivity(Run(pid, rows, es), e.id)
    ensures HasActivity(Step(pid, Run(pid, rows, es), e), e.id)
  {
    if es != [] {
      var mid := Run(pid, rows, es[..|es| - 1]);
      OwnerBooksSettlement(pid, rows, es[..|es| - 1], e);
      OwnsApply(mid, Decide(pid, mid, es[|es| - 1]), e.leg.value);
    }
    var done := Run(pid, rows, es);
    if !HasActivity(done, e.id) {
      assert Step(pid, done, e)[|done|].orderId == e.id;
    }
  }
}

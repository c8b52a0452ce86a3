/**
 activities_capture.py: the imperative pass of one profile over its book, and the split of an account-level stock
 event across the sibling books.
 */
module CapturePass {
  import opened Money
  import opened Sums
  import opened Journal
  import opened Writers
  import LR = LargestRemainder
  import SC = SplitCents

  // ----- the attribution of a stock event -----

  lemma AllRead(order: seq<int>, qty: Readings)
    requires LR.Elements(order) == qty.Keys
    requires forall j :: 0 <= j < |order| ==> order[j] in qty && qty[order[j]].Some?
    ensures forall p :: p in qty ==> qty[p].Some?
  {
    forall p | p in qty ensures qty[p].Some? {
      assert p in LR.Elements(order);
      var j :| 0 <= j < |order| && order[j] == p;
    }
  }

  lemma ValuesAre(shares: Amounts, qty: Readings)
    requires shares.Keys == qty.Keys && forall p :: p in qty ==> qty[p].Some? && shares[p] == qty[p].value
    ensures shares == Values(qty)
  {
    var values := Values(qty);
    assert shares.Keys == values.Keys;
    assert forall p :: p in shares ==> shares[p] == values[p];
  }

  /** One reading per book, in the order the books are listed; the first unreadable one refuses the event. */
  method ReadShares(order: seq<int>, qty: Readings) returns (own: Option<Amounts>)
    requires LR.Distinct(order) && LR.Elements(order) == qty.Keys
    ensures own == if exists p :: p in qty && qty[p].None? then None else Some(Values(qty))
  {
    var shares: Amounts := map[];
    for i := 0 to |order|
      invariant forall j :: 0 <= j < i ==> order[j] in qty && qty[order[j]].Some?
      invariant shares.Keys == LR.Elements(order[..i]) <= qty.Keys
      invariant forall p :: p in shares ==> qty[p].Some? && shares[p] == qty[p].value
    {
      SC.Extend(order, i);
      var p := order[i];
      if qty[p].None? {
        return None;
      }
      shares := shares[p := qty[p].value];
    }
    assert order[..|order|] == order;
    AllRead(order, qty);
    ValuesAre(shares, qty);
    return Some(shares);
  }

  /** `sum(shares.values())` */
  method SumShares(order: seq<int>, shares: Amounts) returns (total: real)
    requires LR.Distinct(order) && LR.Elements(order) == shares.Keys
    ensures total == Total(shares)
  {
    total := 0.0;
    for i := 0 to |order|
      invariant LR.Elements(order[..i]) <= shares.Keys
      invariant total == Sum(LR.Elements(order[..i]), shares)
    {
      SC.Extend(order, i);
      SumAdd(LR.Elements(order[..i]), shares, order[i]);
      total := total + shares[order[i]];
    }
    assert order[..|order|] == order;
  }

  /** The readings of an event, if any, are those of the listed books. */
  ghost predicate Listed(sibs: seq<int>, readings: Option<Readings>) {
    readings.Some? ==> LR.Distinct(sibs) && LR.Elements(sibs) == readings.value.Keys
  }

  /** `_attribute_account_event` past its memo */
  method Attribute(sibs: seq<int>, readings: Option<Readings>, accountQty: real) returns (shares: Option<Amounts>)
    requires Listed(sibs, readings)
    ensures shares == Attributed(readings, accountQty)
  {
    if readings.None? {
      return None;
    }
    shares := ReadShares(sibs, readings.value);
    if shares.Some? {
      var total := SumShares(sibs, shares.value);
      if Abs(total - accountQty) > 0.5 {
        return None;
      }
    }
  }

  // ----- what a dividend split promises -----

  ghost predicate WholeShares(shares: Amounts) {
    forall p :: p in shares ==> shares[p] == shares[p].Floor as real
  }

  ghost function Holders(shares: Amounts): set<int> {
    set p | p in shares && shares[p] != 0.0
  }

  function Dividends(shares: Amounts, perShare: real): (r: Amounts)
    ensures r.Keys == shares.Keys
  {
    map p | p in shares :: OwnDividend(shares[p], perShare)
  }

  function Exact(shares: Amounts, perShare: real): (r: Amounts)
    ensures r.Keys == shares.Keys
  {
    map p | p in shares :: Times(perShare, shares[p])
  }

  function Roundings(shares: Amounts, perShare: real): (r: Amounts)
    ensures r.Keys == shares.Keys
  {
    map p | p in shares :: Dividends(shares, perShare)[p] - Exact(shares, perShare)[p]
  }

  lemma RoundingIsSmall(own: real, perShare: real)
    requires own == own.Floor as real
    ensures -0.005 <= OwnDividend(own, perShare) - Times(perShare, own) <= 0.005
    ensures own == 0.0 ==> OwnDividend(own, perShare) == Times(perShare, own)
  {
    Swap(own, perShare);
  }

  lemma Swap(a: real, b: real)
    ensures Times(a, b) == Times(b, a)
    ensures Times(0.0, b) == 0.0
  {
  }

  /** Whole shares that pass the half-share test sum exactly to the broker's whole position. */
  lemma WholeSplitIsExact(qty: Readings, account: real)
    requires Attributed(Some(qty), account).Some? && WholeShares(Values(qty)) && account == account.Floor as real
    ensures Total(Values(qty)) == account
  {
    var n := WholeSum(qty.Keys, Values(qty));
    CloseWholes(n, account.Floor);
  }

  lemma CloseWholes(m: int, n: int)
    requires Abs(m as real - n as real) <= 0.5
    ensures m == n
  {
    assert (m - n) as real == m as real - n as real;
  }

  /** The roundings of the books add up to at most half a cent per holder. */
  lemma RoundingsBound(shares: Amounts, perShare: real)
    requires WholeShares(shares)
    ensures -0.005 * |Holders(shares)| as real
         <= Total(Dividends(shares, perShare)) - Times(perShare, Total(shares))
         <= 0.005 * |Holders(shares)| as real
  {
    var off, holders := Roundings(shares, perShare), Holders(shares);
    forall p | p in shares ensures -0.005 <= off[p] <= 0.005 && (p !in holders ==> off[p] == 0.0) {
      RoundingIsSmall(shares[p], perShare);
    }
    SumSupport(shares.Keys, holders, off);
    SumBetween(holders, off, -0.005, 0.005);
    SumScaled(shares.Keys, Exact(shares, perShare), perShare, shares);
    SumOfPairs(shares.Keys, Dividends(shares, perShare), Exact(shares, perShare), off);
  }

  /**
   With whole-share books, long and short mixed, the signed amounts the books receive differ from the broker's net
   by at most half a cent per holding book plus the 1.1 cents the whole-share test allows.
   */
  lemma DividendDecomposes(qty: Readings, amount: real, perShare: real)
    requires AccountQty(amount, perShare).Some?
    requires Attributed(Some(qty), AccountQty(amount, perShare).value).Some?
    requires WholeShares(Values(qty))
    ensures Abs(Total(Dividends(Values(qty), perShare)) - amount) <= 0.005 * |Holders(Values(qty))| as real + 0.011
  {
    var account := AccountQty(amount, perShare).value;
    WholeSplitIsExact(qty, account);
    RoundingsBound(Values(qty), perShare);
    Swap(account, perShare);
  }

  lemma CashRowSums(rows: seq<Row>, id: string, symbol: string, amount: real)
    ensures var after := rows + [CashRow(id, symbol, amount, amount)];
            && Cash(after) == Cash(rows) + amount
            && SumRows(after, PnlLens) == SumRows(rows, PnlLens) + amount
            && SumRows(after, CashFor(id)) == SumRows(rows, CashFor(id)) + amount
  {
    var row := CashRow(id, symbol, amount, amount);
    CashRowFlow(id, symbol, amount, amount);
    SumAppend(rows, row, CashLens);
    SumAppend(rows, row, PnlLens);
    SumAppend(rows, row, CashFor(id));
  }

  lemma DividendStep(pid: int, rows: seq<Row>, e: Event)
    requires e.DividendPaid? && e.id != "" && !HasActivity(rows, e.id) && e.dated
    requires e.amount.Some? && AccountQty(e.amount.value, e.perShare).Some?
    ensures var own := OwnDividend(OwnShare(pid, e.readings, AccountQty(e.amount.value, e.perShare).value), e.perShare);
            && Step(pid, rows, e) == (if own == 0.0 then rows else rows + [CashRow(e.id, e.symbol, own, own)])
            && (Decide(pid, rows, e).Booking? <==> own != 0.0)
            && (own != 0.0 ==> Attributed(e.readings, AccountQty(e.amount.value, e.perShare).value).Some?)
  {
  }

  /** What a pass books for a dividend is exactly its own share of an attributed split, in cash and in pnl. */
  lemma DividendBooksOwnShare(pid: int, rows: seq<Row>, e: Event)
    requires e.DividendPaid? && e.id != "" && !HasActivity(rows, e.id) && e.dated
    requires e.amount.Some? && AccountQty(e.amount.value, e.perShare).Some?
    ensures var own := OwnDividend(OwnShare(pid, e.readings, AccountQty(e.amount.value, e.perShare).value), e.perShare);
            && Cash(Step(pid, rows, e)) == Cash(rows) + own
            && SumRows(Step(pid, rows, e), PnlLens) == SumRows(rows, PnlLens) + own
            && SumRows(Step(pid, rows, e), CashFor(e.id)) == SumRows(rows, CashFor(e.id)) + own
            && (own != 0.0 <==> Decide(pid, rows, e).Booking?)
            && (own != 0.0 ==> Attributed(e.readings, AccountQty(e.amount.value, e.perShare).value).Some?)
  {
    DividendStep(pid, rows, e);
    CashRowSums(rows, e.id, e.symbol,
                OwnDividend(OwnShare(pid, e.readings, AccountQty(e.amount.value, e.perShare).value), e.perShare));
  }

  // ----- the writers -----

  method WriteOptionClose(book: Book, e: Event) returns (booked: bool)
    requires e.OptionClose?
    modifies book
    ensures forall pid :: book.rows == Step(pid, old(book.rows), e)
    ensures booked <==> |book.rows| == |old(book.rows)| + 1
    ensures !booked ==> book.rows == old(book.rows)
  {
    if e.id == "" || HasActivity(book.rows, e.id) || e.occ == "" || e.qty.None? {
      return false;
    }
    var qty := Abs(e.qty.value);
    if qty <= 0.0 || !e.readable {
      return false;
    }
    var net := OwnNet(book.rows, e.occ);
    if Abs(net) < 0.5 {
      return false;
    }
    qty := if qty <= Abs(net) then qty else Abs(net);
    var side, premium, pnl;
    if net > 0.0 {
      side, premium := Sell, Average(book.rows, Leg(e.occ), Buy);
      pnl := Round2(-(Times(premium, qty) * 100.0));
    } else {
      side, premium := Buy, Average(book.rows, Leg(e.occ), Sell);
      pnl := Round2(Times(premium, qty) * 100.0);
    }
    book.LogTrade(Row(e.id, side, e.occ, if e.shaped then Some(e.occ) else None, qty, 0.0, 0.0, Closed, pnl));
    book.Close(Leg(e.occ));
    return true;
  }

  method WriteSettlement(book: Book, e: Event) returns (booked: bool)
    requires e.Settlement?
    modifies book
    ensures forall pid :: book.rows == Step(pid, old(book.rows), e)
    ensures booked <==> |book.rows| == |old(book.rows)| + 1
  {
    if e.id == "" || HasActivity(book.rows, e.id) || e.amount.None? {
      return false;
    }
    var net := e.amount.value;
    if net == 0.0 || e.leg.None? || !e.readable || !Owns(book.rows, e.leg.value) {
      return false;
    }
    var side := if net < 0.0 then CashDebit else Dividend;
    book.LogTrade(Row(e.id, side, e.leg.value, None, 1.0, Abs(net), 0.0, Closed, Round2(net)));
    return true;
  }

  method WriteDividend(pid: int, sibs: seq<int>, book: Book, e: Event) returns (booked: bool)
    requires e.DividendPaid? && Listed(sibs, e.readings)
    modifies book
    ensures book.rows == Step(pid, old(book.rows), e)
    ensures booked <==> |book.rows| == |old(book.rows)| + 1
  {
    if e.id == "" || HasActivity(book.rows, e.id) || e.amount.None? {
      return false;
    }
    var amount := e.amount.value;
    if amount == 0.0 || e.perShare <= 0.0 || !e.dated {
      return false;
    }
    var accountQty := WholeQty(amount, e.perShare);
    if Abs(Times(accountQty, e.perShare) - amount) > 0.011 {
      return false;
    }
    var shares := Attribute(sibs, e.readings, accountQty);
    if shares.None? {
      return false;
    }
    var own := if pid in shares.value then shares.value[pid] else 0.0;
    if Abs(own) < 0.5 {
      return false;
    }
    var ownAmount := Round2(Times(own, e.perShare));
    if ownAmount == 0.0 {
      return false;
    }
    var side := if ownAmount > 0.0 then Dividend else CashDebit;
    book.LogTrade(Row(e.id, side, e.symbol, None, 1.0, Abs(ownAmount), 0.0, Closed, ownAmount));
    return true;
  }

  method WriteCashMerger(pid: int, sibs: seq<int>, book: Book, e: Event) returns (booked: bool)
    requires e.CashMerger? && Listed(sibs, e.readings)
    modifies book
    ensures book.rows == Step(pid, old(book.rows), e)
    ensures booked <==> |book.rows| == |old(book.rows)| + 1
  {
    if e.id == "" || HasActivity(book.rows, e.id) || e.removed == 0.0 || e.price.None? || !e.dated {
      return false;
    }
    var shares := Attribute(sibs, e.readings, e.removed);
    if shares.None? {
      return false;
    }
    var own := if pid in shares.value then shares.value[pid] else 0.0;
    if Abs(own) < 0.5 || e.live.None? || Abs(e.live.value - own) > 0.5 {
      return false;
    }
    var entrySide, exitSide := if own > 0.0 then Buy else Short, if own > 0.0 then Sell else Cover;
    var t := Entry(e.symbol, entrySide);
    if SumRows(book.rows, SideQty(t, entrySide)) <= 0.0 {
      return false;
    }
    var gain := Times(e.price.value - Average(book.rows, t, entrySide), Abs(own));
    var pnl := Round2(if own > 0.0 then gain else -gain);
    book.LogTrade(Row(e.id, exitSide, e.symbol, None, Abs(own), e.price.value, e.price.value, Closed, pnl));
    book.Close(t);
    return true;
  }

  method WriteFeeShare(book: Book, e: Event) returns (booked: bool)
    requires e.FeeShare?
    modifies book
    ensures forall pid :: book.rows == Step(pid, old(book.rows), e)
    ensures booked <==> |book.rows| == |old(book.rows)| + 1
  {
    if e.id == "" || HasActivity(book.rows, e.id) || e.net == 0.0 || e.cents <= 0 {
      return false;
    }
    var own := Cents(e.cents);
    var signed := if e.net < 0.0 then -own else own;
    book.LogTrade(Row(e.id, if e.net < 0.0 then CashDebit else Dividend, "FEE", None, 1.0, own, 0.0, Closed, signed));
    return true;
  }

  /** Whatever readings the event carries are those of the listed books. */
  ghost predicate SiblingsRead(sibs: seq<int>, e: Event) {
    match e
    case DividendPaid(_, _, _, _, _, readings) => Listed(sibs, readings)
    case CashMerger(_, _, _, _, _, readings, _) => Listed(sibs, readings)
    case _ => true
  }

  method Write(pid: int, sibs: seq<int>, book: Book, e: Event) returns (booked: bool)
    requires SiblingsRead(sibs, e)
    modifies book
    ensures book.rows == Step(pid, old(book.rows), e)
    ensures |book.rows| == |old(book.rows)| + if booked then 1 else 0
  {
    StepDrift(pid, book.rows, e);
    match e
    case OptionClose(_, _, _, _, _) => booked := WriteOptionClose(book, e);
    case Settlement(_, _, _, _) => booked := WriteSettlement(book, e);
    case DividendPaid(_, _, _, _, _, _) => booked := WriteDividend(pid, sibs, book, e);
    case CashMerger(_, _, _, _, _, _, _) => booked := WriteCashMerger(pid, sibs, book, e);
    case FeeShare(_, _, _) => booked := WriteFeeShare(book, e);
  }

  // ----- the pass -----

  /** A row of the MISC stream: an option event under its group, the cash of a group, or something else. */
  datatype Misc =
    | MiscEvent(id: string, group: string, symbol: string, qty: Option<real>, shaped: bool, readable: bool)
    | MiscTrade(id: string, group: string, amount: Option<real>, readable: bool)
    | MiscOther

  /** `group_occ`: the contract each group of the batch names, the last event winning. */
  function Groups(misc: seq<Misc>): map<string, string> {
    if misc == [] then map[]
    else
      var m, before := misc[|misc| - 1], Groups(misc[..|misc| - 1]);
      if m.MiscEvent? && m.group != "" && m.symbol != "" then before[m.group := m.symbol] else before
  }

  function Routed(m: Misc, groups: map<string, string>): seq<Event> {
    match m
    case MiscEvent(id, _, symbol, qty, shaped, readable) => [OptionClose(id, symbol, qty, shaped, readable)]
    case MiscTrade(id, group, amount, readable) =>
      [Settlement(id, amount, if group in groups then Some(groups[group]) else None, readable)]
    case MiscOther => []
  }

  function MiscEvents(misc: seq<Misc>, groups: map<string, string>): seq<Event> {
    if misc == [] then []
    else MiscEvents(misc[..|misc| - 1], groups) + Routed(misc[|misc| - 1], groups)
  }

  method GroupsOf(misc: seq<Misc>) returns (groups: map<string, string>)
    ensures groups == Groups(misc)
  {
    groups := map[];
    for i := 0 to |misc|
      invariant groups == Groups(misc[..i])
    {
      assert misc[..i + 1][..i] == misc[..i];
      var m := misc[i];
      if m.MiscEvent? && m.group != "" && m.symbol != "" {
        groups := groups[m.group := m.symbol];
      }
    }
    assert misc[..|misc|] == misc;
  }

  lemma {:induction false} RunConcat(pid: int, rows: seq<Row>, es: seq<Event>, fs: seq<Event>)
    ensures Run(pid, rows, es + fs) == Run(pid, Run(pid, rows, es), fs)
  {
    if fs == [] {
      assert es + fs == es;
    } else {
      RunConcat(pid, rows, es, fs[..|fs| - 1]);
      assert (es + fs)[..|es + fs| - 1] == es + fs[..|fs| - 1];
    }
  }

  lemma RunOne(pid: int, rows: seq<Row>, e: Event)
    ensures Run(pid, rows, [e]) == Step(pid, rows, e)
  {
    assert [e][..0] == [];
  }

  lemma MiscStep(pid: int, rows: seq<Row>, misc: seq<Misc>, i: nat, groups: map<string, string>)
    requires i < |misc|
    ensures var before := Run(pid, rows, MiscEvents(misc[..i], groups));
            var routed := Routed(misc[i], groups);
            Run(pid, rows, MiscEvents(misc[..i + 1], groups))
            == if routed == [] then before else Step(pid, before, routed[0])
  {
    var routed := Routed(misc[i], groups);
    assert misc[..i + 1][..i] == misc[..i];
    RunConcat(pid, rows, MiscEvents(misc[..i], groups), routed);
    if routed != [] {
      assert routed == [routed[0]];
      RunOne(pid, Run(pid, rows, MiscEvents(misc[..i], groups)), routed[0]);
    }
  }

  /** The MISC loop over one profile's book */
  method BookMisc(pid: int, book: Book, misc: seq<Misc>, groups: map<string, string>) returns (written: int)
    modifies book
    ensures book.rows == Run(pid, old(book.rows), MiscEvents(misc, groups))
    ensures written == |book.rows| - |old(book.rows)|
  {
    written := 0;
    for i := 0 to |misc|
      invariant book.rows == Run(pid, old(book.rows), MiscEvents(misc[..i], groups))
      invariant written == |book.rows| - |old(book.rows)|
    {
      MiscStep(pid, old(book.rows), misc, i, groups);
      var routed := Routed(misc[i], groups);
      if routed != [] {
        var booked := Write(pid, [], book, routed[0]);
        written := written + if booked then 1 else 0;
      }
    }
    assert misc[..|misc|] == misc;
  }
}

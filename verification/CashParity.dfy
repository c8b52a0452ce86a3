/**
 aggregate_audit.py: the per-account cash parity audit and the attribution of a gap to the account's own orders
 that are mid fill-handshake.
 */
module CashParity {
  import opened Money
  import opened Journal

  /** What the broker reports for an order: filled quantity and average price. */
  datatype Order = Order(filledQty: real, avgPrice: real)

  /**
   A journal row with its age and the cash its own order has really moved at the broker. The last is what an audit
   wants to know and can only see through the order lookups.
   */
  datatype Entry = Entry(row: Row, recent: bool, moved: real)

  /** Order lookups that succeed; an id that is missing is unverifiable. */
  type Lookups = map<string, Order>

  const ROW_CAP: nat := 40

  // ----- the attribution -----

  /** The rows the query can return: live, with an order, without a settled fill, younger than the window. */
  predicate Candidate(e: Entry) {
    && Live(e.row) && e.row.orderId != "" && e.recent
    && (e.row.fill <= 0.0 || e.row.status.PendingFill?)
  }

  /** The first rows of the table the query returns, at most the cap. */
  function Selected(table: seq<Entry>): (r: seq<Entry>)
    ensures |r| <= ROW_CAP
    decreases |table|, 1
  {
    if table == [] then []
    else
      var before := Selected(table[..|table| - 1]);
      if Takes(table) then before + [table[|table| - 1]] else before
  }

  /** Is the last row of the table still selected? */
  predicate Takes(table: seq<Entry>)
    requires table != []
    decreases |table|, 0
  {
    |Selected(table[..|table| - 1])| < ROW_CAP && Candidate(table[|table| - 1])
  }

  function Signed(side: Side, amount: real): real {
    if side.Buy? || side.Cover? then -amount else amount
  }

  /** The cash the journal already carries for the row. */
  function JournalSide(r: Row): real {
    if Executed(r) > 0.0 then Signed(r.side, Value(r)) else 0.0
  }

  /** The cash the order's fills moved at the broker. */
  function BrokerSide(r: Row, o: Order): real {
    var filled := Times(o.filledQty, o.avgPrice);
    Signed(r.side, if r.occ.Some? then filled * 100.0 else filled)
  }

  predicate Verified(e: Entry, orders: Lookups, options: bool) {
    (e.row.occ.None? || options) && e.row.qty > 0.0 && e.row.orderId in orders
  }

  /** What one selected row explains, in whole cents; less than a cent explains nothing. */
  function Explained(e: Entry, orders: Lookups, options: bool): real {
    if !Verified(e, orders, options) then 0.0
    else Round2(BrokerSide(e.row, orders[e.row.orderId]) - JournalSide(e.row))
  }

  function SumExplained(es: seq<Entry>, orders: Lookups, options: bool): real {
    if es == [] then 0.0
    else SumExplained(es[..|es| - 1], orders, options) + Explained(es[|es| - 1], orders, options)
  }

  function Nonzero(es: seq<Entry>, orders: Lookups, options: bool): seq<string> {
    if es == [] then []
    else
      var e, before := es[|es| - 1], Nonzero(es[..|es| - 1], orders, options);
      if Explained(e, orders, options) != 0.0 then before + [e.row.orderId] else before
  }

  lemma ExplainedIsWhole(e: Entry, orders: Lookups, options: bool) returns (n: int)
    ensures Explained(e, orders, options) == Cents(n)
  {
    n := if !Verified(e, orders, options) then 0
         else RoundHalfEven((BrokerSide(e.row, orders[e.row.orderId]) - JournalSide(e.row)) * 100.0);
  }

  lemma CentsAdd(m: int, n: int)
    ensures Round2(Cents(m) + Cents(n)) == Cents(m) + Cents(n) == Cents(m + n)
  {
    Round2OfCents(m + n);
  }

  lemma SmallCents(n: int)
    ensures Abs(Cents(n)) < 0.01 <==> Cents(n) == 0.0
    ensures Cents(n) == 0.0 <==> n == 0
  {
  }

  // ----- which rows are in flight, and what they explain -----

  function Candidates(table: seq<Entry>): seq<Entry> {
    if table == [] then []
    else
      var before := Candidates(table[..|table| - 1]);
      if Candidate(table[|table| - 1]) then before + [table[|table| - 1]] else before
  }

  /** The query returns the first forty candidates of a table. */
  lemma {:induction false} SelectedAreFirst(table: seq<Entry>)
    ensures Selected(table) == if |Candidates(table)| <= 40 then Candidates(table) else Candidates(table)[..40]
  {
    if table != [] {
      SelectedAreFirst(table[..|table| - 1]);
    }
  }

  /** A live, young row with an order id is one of them exactly until its fill is settled. */
  lemma InFlightIff(e: Entry)
    ensures Selected([e]) == [e]
       <==> e.row.status in {Open, PendingFill} && e.row.orderId != "" && e.recent
            && !(e.row.fill > 0.0 && e.row.status == Open)
  {
    assert [e][..0] == [];
  }

  /** An order filled at the broker just as its journal row has it explains nothing. */
  lemma SettledExplainsNothing(e: Entry, orders: Lookups)
    requires e.row.side in {Buy, Sell, Short, Cover} && e.row.orderId in orders && e.row.fill > 0.0
    requires orders[e.row.orderId] == Order(e.row.qty, e.row.fill)
    ensures Explained(e, orders, true) == 0.0
    ensures Live(e.row) && e.row.qty > 0.0 ==> BrokerSide(e.row, orders[e.row.orderId]) == CashFlow(e.row)
  {
    Round2OfCents(0);
  }

  /** A pending row of which the journal carries no price explains all that the broker moved for it. */
  lemma PendingExplainsAll(e: Entry, orders: Lookups)
    requires e.row.orderId in orders && e.row.qty > 0.0 && e.row.price <= 0.0 && e.row.fill == 0.0
    ensures var o := orders[e.row.orderId];
            var moved := Times(o.filledQty, o.avgPrice) * if e.row.occ.Some? then 100.0 else 1.0;
            Explained(e, orders, true) == Round2(if e.row.side in {Buy, Cover} then -moved else moved)
  {
  }

  /** One table's turn: the running total stays in whole cents, so the per-step rounding loses nothing. */
  method Attribute(rows: seq<Entry>, orders: Lookups, options: bool, before: real, ghost cents0: int)
    returns (total: real, ids: seq<string>, ghost cents: int)
    requires before == Cents(cents0)
    ensures total == Cents(cents) && total == before + SumExplained(rows, orders, options)
    ensures ids == Nonzero(rows, orders, options)
  {
    cents, total, ids := cents0, before, [];
    for i := 0 to |rows|
      invariant total == Cents(cents) && total == before + SumExplained(rows[..i], orders, options)
      invariant ids == Nonzero(rows[..i], orders, options)
    {
      assert rows[..i + 1][..i] == rows[..i];
      var r := rows[i].row;
      if (r.occ.None? || options) && r.qty > 0.0 && r.orderId in orders {
        var amount := Round2(BrokerSide(r, orders[r.orderId]) - JournalSide(r));
        ghost var n := ExplainedIsWhole(rows[i], orders, options);
        SmallCents(n);
        if !(Abs(amount) < 0.01) {
          CentsAdd(cents, n);
          total := Round2(total + amount);
          ids := ids + [r.orderId];
          cents := cents + n;
        }
      }
    }
    assert rows[..|rows|] == rows;
  }

  /** How far a journal can be read: its rows, a connection whose queries fail, or no connection at all. */
  datatype Reading = Full | FailedQuery | FailedConnection

  /** One profile of the account. */
  datatype BookView = BookView(initial: real, table: seq<Entry>, reading: Reading)

  /** The rows the attribution can query. */
  function Visible(b: BookView): seq<Entry> {
    if b.reading.Full? then b.table else []
  }

  /** What the in-flight rows of all books explain of the gap. */
  function Attributed(books: seq<BookView>, orders: Lookups, options: bool): real {
    if books == [] then 0.0
    else Attributed(books[..|books| - 1], orders, options)
         + SumExplained(Selected(Visible(books[|books| - 1])), orders, options)
  }

  function InFlightIds(books: seq<BookView>, orders: Lookups, options: bool): seq<string> {
    if books == [] then []
    else InFlightIds(books[..|books| - 1], orders, options)
         + Nonzero(Selected(Visible(books[|books| - 1])), orders, options)
  }

  /** `_inflight_cash_attribution` */
  method AttributeInFlight(books: seq<BookView>, orders: Lookups, options: bool) returns (total: real, ids: seq<string>)
    ensures total == Attributed(books, orders, options)
    ensures ids == InFlightIds(books, orders, options)
  {
    ghost var cents := 0;
    total, ids := 0.0, [];
    for i := 0 to |books|
      invariant total == Cents(cents) && total == Attributed(books[..i], orders, options)
      invariant ids == InFlightIds(books[..i], orders, options)
    {
      assert books[..i + 1][..i] == books[..i];
      var more;
      total, more, cents := Attribute(Selected(Visible(books[i])), orders, options, total, cents);
      ids := ids + more;
    }
    assert books[..|books|] == books;
  }

  // ----- the audit -----

  datatype Verdict =
    | Unverifiable
    | Matches(drift: real)
    | InFlight(drift: real, residual: real)
    | BrokerOrphan(drift: real, residual: real)
    | JournalPhantom(drift: real, residual: real)

  function Rows(table: seq<Entry>): seq<Row> {
    if table == [] then [] else Rows(table[..|table| - 1]) + [table[|table| - 1].row]
  }

  /** `_journal_cash`: a failed query falls back to the initial capital, a failed connection gives nothing. */
  function BookCash(b: BookView): real {
    match b.reading
    case Full => Round2(b.initial + Cash(Rows(b.table)))
    case FailedQuery => b.initial
    case FailedConnection => 0.0
  }

  predicate SomeUnverifiable(books: seq<BookView>) {
    exists i :: 0 <= i < |books| && books[i].reading.FailedConnection?
  }

  function JournalCash(books: seq<BookView>): real {
    if books == [] then 0.0 else JournalCash(books[..|books| - 1]) + BookCash(books[|books| - 1])
  }

  function Tolerance(brokerCash: real): real {
    var relative := Abs(brokerCash) * 0.001;
    if relative > 50.0 then relative else 50.0
  }

  function Drift(cash: real, journal: real, feeNet: real): real {
    Round2(Round2(cash) - (Round2(journal) + feeNet))
  }

  function Weigh(cash: real, journal: real, feeNet: real, attributed: real, inFlight: bool): Verdict {
    var d, tol := Drift(cash, journal, feeNet), Tolerance(Round2(cash));
    if Abs(d) <= tol then Matches(d) else Explanation(d, tol, attributed, inFlight)
  }

  function Explanation(d: real, tol: real, attributed: real, inFlight: bool): Verdict {
    var residual := Round2(d - attributed);
    if inFlight && Abs(residual) <= tol then InFlight(d, residual)
    else if d > 0.0 then BrokerOrphan(d, residual) else JournalPhantom(d, residual)
  }

  function Judge(brokerCash: Option<real>, books: seq<BookView>, feeNet: real, orders: Lookups): Verdict {
    if brokerCash.None? || SomeUnverifiable(books) then Unverifiable
    else Weigh(brokerCash.value, JournalCash(books), feeNet, Attributed(books, orders, true),
               InFlightIds(books, orders, true) != [])
  }

  /** The drift the attribution leaves over. */
  function Residual(cash: real, books: seq<BookView>, feeNet: real, orders: Lookups): real {
    Round2(Drift(cash, JournalCash(books), feeNet) - Attributed(books, orders, true))
  }

  /** The sum over the profiles whose journal could be opened, and whether some could not. */
  method SumBookCash(books: seq<BookView>) returns (journal: real, unverifiable: bool)
    ensures journal == JournalCash(books) && unverifiable == SomeUnverifiable(books)
  {
    journal, unverifiable := 0.0, false;
    for i := 0 to |books|
      invariant journal == JournalCash(books[..i])
      invariant unverifiable <==> exists j :: 0 <= j < i && books[j].reading.FailedConnection?
    {
      assert books[..i + 1][..i] == books[..i];
      if books[i].reading.FailedConnection? {
        unverifiable := true;
      } else {
        journal := journal + BookCash(books[i]);
      }
    }
    assert books[..|books|] == books;
  }

  /** Past the tolerance: the attribution decides whether the drift is in flight. */
  method ExplainDrift(d: real, tol: real, books: seq<BookView>, orders: Lookups) returns (v: Verdict)
    ensures v == Explanation(d, tol, Attributed(books, orders, true), InFlightIds(books, orders, true) != [])
  {
    var total, ids := AttributeInFlight(books, orders, true);
    var residual := Round2(d - total);
    if ids != [] && Abs(residual) <= tol {
      return InFlight(d, residual);
    }
    return if d > 0.0 then BrokerOrphan(d, residual) else JournalPhantom(d, residual);
  }

  /** The part of `audit_account_cash_parity` that judges one account. */
  method AuditAccount(brokerCash: Option<real>, books: seq<BookView>, feeNet: real, orders: Lookups)
    returns (v: Verdict)
    ensures v == Judge(brokerCash, books, feeNet, orders)
  {
    var journal, unverifiable := SumBookCash(books);
    if brokerCash.None? || unverifiable {
      return Unverifiable;
    }
    var d, tol := Drift(brokerCash.value, journal, feeNet), Tolerance(Round2(brokerCash.value));
    if Abs(d) <= tol {
      return Matches(d);
    }
    v := ExplainDrift(d, tol, books, orders);
  }

  /** The audit refuses a verdict exactly when the broker or some journal cannot be reached. */
  lemma UnverifiableIff(brokerCash: Option<real>, books: seq<BookView>, feeNet: real, orders: Lookups)
    ensures Judge(brokerCash, books, feeNet, orders).Unverifiable?
       <==> brokerCash.None? || exists i :: 0 <= i < |books| && books[i].reading.FailedConnection?
  {
  }

  // ----- what a verdict means -----

  /** The gap is at most fifty dollars, or a thousandth of the broker's cash. */
  ghost predicate Tolerated(gap: real, cash: real) {
    -50.0 <= gap <= 50.0 || -0.001 * Abs(cash) <= gap <= 0.001 * Abs(cash)
  }

  lemma ToleratedIff(gap: real, cash: real)
    ensures Tolerated(gap, cash) <==> Abs(gap) <= Tolerance(cash)
  {
  }

  lemma {:induction false} NonzeroIff(es: seq<Entry>, orders: Lookups)
    ensures Nonzero(es, orders, true) != [] <==> exists e :: e in es && Explained(e, orders, true) != 0.0
  {
    if es != [] {
      NonzeroIff(es[..|es| - 1], orders);
      assert es == es[..|es| - 1] + [es[|es| - 1]];
    }
  }

  /** Some selected row of the book's readable journal explains part of the gap. */
  ghost predicate Explains(b: BookView, orders: Lookups) {
    exists e :: e in Selected(Visible(b)) && Explained(e, orders, true) != 0.0
  }

  lemma ExplainsIff(b: BookView, orders: Lookups)
    ensures Explains(b, orders) <==> Nonzero(Selected(Visible(b)), orders, true) != []
  {
    NonzeroIff(Selected(Visible(b)), orders);
  }

  ghost predicate SomeExplain(books: seq<BookView>, orders: Lookups) {
    exists i :: 0 <= i < |books| && Explains(books[i], orders)
  }

  lemma SomeExplainStep(books: seq<BookView>, orders: Lookups)
    requires books != []
    ensures SomeExplain(books, orders)
       <==> SomeExplain(books[..|books| - 1], orders) || Explains(books[|books| - 1], orders)
  {
    var init := books[..|books| - 1];
    if i :| 0 <= i < |init| && Explains(init[i], orders) {
      assert Explains(books[i], orders);
    }
    if i :| 0 <= i < |books| && Explains(books[i], orders) {
      assert i < |init| ==> Explains(init[i], orders);
    }
  }

  lemma {:induction false} SomeExplainIff(books: seq<BookView>, orders: Lookups)
    ensures InFlightIds(books, orders, true) != [] <==> SomeExplain(books, orders)
  {
    if books != [] {
      SomeExplainIff(books[..|books| - 1], orders);
      SomeExplainStep(books, orders);
      ExplainsIff(books[|books| - 1], orders);
    }
  }

  /**
   How a verdict reads, by the gap, the rest of it that the own orders leave, and whether some order explains any: it
   matches within the tolerance; beyond it is in flight when some order explains part of it and the rest is within the
   tolerance; otherwise the sign of the gap names the verdict.
   */
  ghost predicate Reads(v: Verdict, cash: real, gap: real, rest: real, explained: bool) {
    && !v.Unverifiable? && v.drift == gap && (v.Matches? || v.residual == rest)
    && (v.Matches? <==> Tolerated(gap, cash))
    && (v.InFlight? <==> !Tolerated(gap, cash) && explained && Tolerated(rest, cash))
    && (v.BrokerOrphan? <==> !v.Matches? && !v.InFlight? && gap > 0.0)
    && (v.JournalPhantom? <==> !v.Matches? && !v.InFlight? && gap < 0.0)
  }

  ghost predicate Reachable(books: seq<BookView>) {
    forall i :: 0 <= i < |books| ==> !books[i].reading.FailedConnection?
  }

  lemma JudgeIsWeigh(cash: real, books: seq<BookView>, feeNet: real, orders: Lookups)
    requires Reachable(books)
    ensures Judge(Some(cash), books, feeNet, orders)
         == Weigh(cash, JournalCash(books), feeNet, Attributed(books, orders, true),
                  InFlightIds(books, orders, true) != [])
  {
  }

  lemma WeighReads(cash: real, journal: real, feeNet: real, attributed: real, explained: bool)
    ensures Reads(Weigh(cash, journal, feeNet, attributed, explained), Round2(cash), Drift(cash, journal, feeNet),
                  Round2(Drift(cash, journal, feeNet) - attributed), explained)
  {
    var gap := Drift(cash, journal, feeNet);
    ToleratedIff(gap, Round2(cash));
    ToleratedIff(Round2(gap - attributed), Round2(cash));
  }

  /**
   The verdict on an account whose broker and journals can be reached, on the gap between the broker's cash and the
   journal cash with the outstanding fees, and on what the attribution leaves of it.
   */
  lemma VerdictIs(cash: real, books: seq<BookView>, feeNet: real, orders: Lookups)
    requires Reachable(books)
    ensures Reads(Judge(Some(cash), books, feeNet, orders), Round2(cash), Drift(cash, JournalCash(books), feeNet),
                  Residual(cash, books, feeNet, orders), SomeExplain(books, orders))
  {
    SomeExplainIff(books, orders);
    JudgeIsWeigh(cash, books, feeNet, orders);
    WeighReads(cash, JournalCash(books), feeNet, Attributed(books, orders, true),
               InFlightIds(books, orders, true) != []);
  }

  /** The cash the readable rows and the capital of all books make, before any rounding. */
  function ExactCash(books: seq<BookView>): real {
    if books == [] then 0.0
    else ExactCash(books[..|books| - 1])
         + books[|books| - 1].initial + Cash(Rows(Visible(books[|books| - 1])))
  }

  lemma {:induction false} JournalCashIsExact(books: seq<BookView>)
    requires Reachable(books)
    ensures Within(JournalCash(books) - ExactCash(books), |books|)
  {
    if books != [] {
      var init, b := books[..|books| - 1], books[|books| - 1];
      JournalCashIsExact(init);
      assert Rows([]) == [] && Cash([]) == 0.0;
      WithinAdd(JournalCash(init) - ExactCash(init), |init|,
                BookCash(b) - b.initial - Cash(Rows(Visible(b))), 1);
    }
  }

  lemma GapIsNear(cash: real, journal: real, exact: real, feeNet: real, n: nat)
    requires Within(journal - exact, n)
    ensures Abs(cash - exact - feeNet) <= Abs(Drift(cash, journal, feeNet)) + 0.005 * (n + 3) as real
  {
  }

  /** Within the tolerance and half a cent for each of n roundings, more or, for a negative n, less. */
  ghost predicate Near(gap: real, tol: real, n: int) {
    Abs(gap) <= tol + 0.005 * n as real
  }

  lemma WeighMatchIsNear(cash: real, journal: real, exact: real, feeNet: real, n: nat, attributed: real,
                         explained: bool)
    requires Within(journal - exact, n) && Weigh(cash, journal, feeNet, attributed, explained).Matches?
    ensures Near(cash - exact - feeNet, Tolerance(Round2(cash)), n + 3)
  {
    GapIsNear(cash, journal, exact, feeNet, n);
  }

  /** A match bounds the gap: one beyond the tolerance and the counted roundings never reads as a match. */
  lemma MatchIsSound(cash: real, books: seq<BookView>, feeNet: real, orders: Lookups)
    requires Judge(Some(cash), books, feeNet, orders).Matches?
    ensures Near(cash - ExactCash(books) - feeNet, Tolerance(Round2(cash)), |books| + 3)
  {
    JournalCashIsExact(books);
    JudgeIsWeigh(cash, books, feeNet, orders);
    WeighMatchIsNear(cash, JournalCash(books), ExactCash(books), feeNet, |books|, Attributed(books, orders, true),
                     InFlightIds(books, orders, true) != []);
  }

  // ----- soundness -----

  predicate TradeSide(side: Side) {
    side.Buy? || side.Sell? || side.Short? || side.Cover?
  }

  /** Broker minus journal cash of one row. */
  function RowGap(e: Entry): real {
    e.moved - CashFlow(e.row)
  }

  function TableGap(table: seq<Entry>): real {
    if table == [] then 0.0 else TableGap(table[..|table| - 1]) + RowGap(table[|table| - 1])
  }

  /** The gap of the rows the attribution cannot see: settled, too old, past the cap or unverifiable. */
  function Unqualified(table: seq<Entry>, orders: Lookups): real {
    if table == [] then 0.0
    else
      var last := table[|table| - 1];
      Unqualified(table[..|table| - 1], orders)
      + if Takes(table) && Verified(last, orders, true) then 0.0 else RowGap(last)
  }

  function Qualified(table: seq<Entry>, orders: Lookups): nat {
    if table == [] then 0
    else Qualified(table[..|table| - 1], orders)
         + if Takes(table) && Verified(table[|table| - 1], orders, true) then 1 else 0
  }

  /** A verified lookup tells the truth about its row, and only trades are in flight. */
  predicate Truthful(table: seq<Entry>, orders: Lookups) {
    forall i :: 0 <= i < |table| && Candidate(table[i]) && Verified(table[i], orders, true) ==>
                  && TradeSide(table[i].row.side)
                  && table[i].moved == BrokerSide(table[i].row, orders[table[i].row.orderId])
  }

  lemma JournalSideIsFlow(e: Entry, orders: Lookups)
    requires Candidate(e) && Verified(e, orders, true) && TradeSide(e.row.side)
    ensures JournalSide(e.row) == CashFlow(e.row)
  {
  }

  lemma {:induction false} TableIsExplained(table: seq<Entry>, orders: Lookups)
    requires Truthful(table, orders)
    ensures Within(TableGap(table) - Unqualified(table, orders) - SumExplained(Selected(table), orders, true),
                   Qualified(table, orders))
  {
    if table != [] {
      var init, last := table[..|table| - 1], table[|table| - 1];
      assert Truthful(init, orders);
      TableIsExplained(init, orders);
      if Takes(table) {
        var sel := Selected(init);
        assert (sel + [last])[..|sel|] == sel;
        if Verified(last, orders, true) {
          JournalSideIsFlow(last, orders);
          WithinAdd(TableGap(init) - Unqualified(init, orders) - SumExplained(sel, orders, true),
                    Qualified(init, orders), RowGap(last) - Explained(last, orders, true), 1);
        }
      }
    }
  }

  // ----- the whole account -----

  function Moved(table: seq<Entry>): real {
    if table == [] then 0.0 else Moved(table[..|table| - 1]) + table[|table| - 1].moved
  }

  lemma {:induction false} GapIsMovedMinusCash(table: seq<Entry>)
    ensures TableGap(table) == Moved(table) - Cash(Rows(table))
  {
    if table != [] {
      GapIsMovedMinusCash(table[..|table| - 1]);
      SumAppend(Rows(table[..|table| - 1]), table[|table| - 1].row, CashLens);
    }
  }

  /** The cash the account's own capital and own orders account for. */
  function OwnCash(books: seq<BookView>): real {
    if books == [] then 0.0
    else OwnCash(books[..|books| - 1]) + books[|books| - 1].initial + Moved(books[|books| - 1].table)
  }

  /** Broker cash that no own order moved: deposits, unjournaled activities, foreign orders. */
  function External(cash: real, books: seq<BookView>, feeNet: real): real {
    cash - feeNet - OwnCash(books)
  }

  /** What the attribution cannot see of a book: rows that do not qualify, or everything it cannot read. */
  function Unseen(b: BookView, orders: Lookups): real {
    match b.reading
    case Full => Unqualified(b.table, orders)
    case FailedQuery => Moved(b.table)
    case FailedConnection => b.initial + Moved(b.table)
  }

  function Unexplained(books: seq<BookView>, orders: Lookups): real {
    if books == [] then 0.0
    else Unexplained(books[..|books| - 1], orders) + Unseen(books[|books| - 1], orders)
  }

  /** The roundings behind a residual: one per qualified row and one per book, of the journals that can be read. */
  function Roundings(books: seq<BookView>, orders: Lookups): nat {
    if books == [] then 0
    else Roundings(books[..|books| - 1], orders) + BookRoundings(books[|books| - 1], orders)
  }

  function BookRoundings(b: BookView, orders: Lookups): nat {
    if b.reading.Full? then Qualified(b.table, orders) + 1 else 0
  }

  predicate Sound(b: BookView, orders: Lookups) {
    b.reading.Full? ==> Truthful(b.table, orders)
  }

  lemma BookIsExplained(b: BookView, orders: Lookups)
    requires Sound(b, orders)
    ensures Within(b.initial + Moved(b.table) - BookCash(b) - Unseen(b, orders)
                   - SumExplained(Selected(Visible(b)), orders, true),
                   BookRoundings(b, orders))
  {
    if b.reading.Full? {
      FullBookIsExplained(b, orders);
    }
  }

  lemma FullBookIsExplained(b: BookView, orders: Lookups)
    requires b.reading.Full? && Truthful(b.table, orders)
    ensures Within(b.initial + Moved(b.table) - BookCash(b) - Unqualified(b.table, orders)
                   - SumExplained(Selected(b.table), orders, true),
                   Qualified(b.table, orders) + 1)
  {
    TableIsExplained(b.table, orders);
    GapIsMovedMinusCash(b.table);
    var exact := b.initial + Cash(Rows(b.table));
    WithinAdd(TableGap(b.table) - Unqualified(b.table, orders) - SumExplained(Selected(b.table), orders, true),
              Qualified(b.table, orders), exact - BookCash(b), 1);
  }

  lemma {:induction false} BooksAreExplained(books: seq<BookView>, orders: Lookups)
    requires forall i :: 0 <= i < |books| ==> Sound(books[i], orders)
    ensures Within(OwnCash(books) - JournalCash(books) - Unexplained(books, orders) - Attributed(books, orders, true),
                   Roundings(books, orders))
  {
    if books != [] {
      var init, b := books[..|books| - 1], books[|books| - 1];
      BooksAreExplained(init, orders);
      BookIsExplained(b, orders);
      WithinAdd(OwnCash(init) - JournalCash(init) - Unexplained(init, orders) - Attributed(init, orders, true),
                Roundings(init, orders),
                b.initial + Moved(b.table) - BookCash(b) - Unseen(b, orders)
                - SumExplained(Selected(Visible(b)), orders, true),
                BookRoundings(b, orders));
    }
  }

  /**
   What is left of the drift after the attribution is the external cash plus the orders that did not qualify or could
   not be read, up to half a cent for each qualified row and each readable book and four roundings of the audit itself.
   */
  lemma AttributionIsSound(cash: real, books: seq<BookView>, feeNet: real, orders: Lookups)
    requires forall i :: 0 <= i < |books| ==> Sound(books[i], orders)
    ensures Within(Residual(cash, books, feeNet, orders) - External(cash, books, feeNet) - Unexplained(books, orders),
                   Roundings(books, orders) + 4)
  {
    BooksAreExplained(books, orders);
    var gap := OwnCash(books) - JournalCash(books) - Unexplained(books, orders) - Attributed(books, orders, true);
    var audit := Residual(cash, books, feeNet, orders)
                 - (cash - JournalCash(books) - feeNet - Attributed(books, orders, true));
    AuditRoundings(cash, JournalCash(books), feeNet, Attributed(books, orders, true));
    WithinAdd(gap, Roundings(books, orders), audit, 4);
  }

  lemma AuditRoundings(cash: real, journal: real, feeNet: real, attributed: real)
    ensures Within(Round2(Drift(cash, journal, feeNet) - attributed)
                   - (cash - journal - feeNet - attributed), 4)
  {
  }

  /** An `in_flight` verdict bounds everything the account's own orders do not explain. */
  lemma InFlightIsSound(cash: real, books: seq<BookView>, feeNet: real, orders: Lookups)
    requires forall i :: 0 <= i < |books| ==> Sound(books[i], orders)
    requires Judge(Some(cash), books, feeNet, orders).InFlight?
    ensures Abs(External(cash, books, feeNet) + Unexplained(books, orders))
         <= Tolerance(Round2(cash)) + 0.005 * (Roundings(books, orders) + 4) as real
  {
    AttributionIsSound(cash, books, feeNet, orders);
    InFlightResidual(cash, books, feeNet, orders);
    Bounded(Residual(cash, books, feeNet, orders), External(cash, books, feeNet), Unexplained(books, orders),
            Tolerance(Round2(cash)), Roundings(books, orders) + 4);
  }

  /**
   Conversely, a gap beyond the tolerance that the account's own orders explain, up to what the tolerance and the
   roundings leave, is in flight and not blamed on anybody.
   */
  lemma ExplainedGapIsInFlight(cash: real, books: seq<BookView>, feeNet: real, orders: Lookups)
    requires Reachable(books) && forall i :: 0 <= i < |books| ==> Sound(books[i], orders)
    requires !Judge(Some(cash), books, feeNet, orders).Matches?
    requires Near(External(cash, books, feeNet) + Unexplained(books, orders), Tolerance(Round2(cash)),
                  -(Roundings(books, orders) + 4))
    ensures Judge(Some(cash), books, feeNet, orders).InFlight?
  {
    AttributionIsSound(cash, books, feeNet, orders);
    ResidualIsSmall(Residual(cash, books, feeNet, orders), External(cash, books, feeNet), Unexplained(books, orders),
                    Tolerance(Round2(cash)), Roundings(books, orders) + 4);
    SmallResidualIsInFlight(cash, books, feeNet, orders);
  }

  lemma SmallResidualIsInFlight(cash: real, books: seq<BookView>, feeNet: real, orders: Lookups)
    requires Reachable(books) && Abs(Residual(cash, books, feeNet, orders)) <= Tolerance(Round2(cash))
    ensures Judge(Some(cash), books, feeNet, orders).Matches? || Judge(Some(cash), books, feeNet, orders).InFlight?
  {
    NothingExplained(books, orders);
    RoundedTwice(Round2(cash) - (Round2(JournalCash(books)) + feeNet));
    JudgeIsWeigh(cash, books, feeNet, orders);
    WeighInFlight(cash, JournalCash(books), feeNet, Attributed(books, orders, true),
                  InFlightIds(books, orders, true) != []);
  }

  lemma WeighInFlight(cash: real, journal: real, feeNet: real, attributed: real, explained: bool)
    requires !explained ==> attributed == 0.0
    requires Round2(Drift(cash, journal, feeNet)) == Drift(cash, journal, feeNet)
    requires Abs(Round2(Drift(cash, journal, feeNet) - attributed)) <= Tolerance(Round2(cash))
    ensures Weigh(cash, journal, feeNet, attributed, explained).Matches?
            || Weigh(cash, journal, feeNet, attributed, explained).InFlight?
  {
    if !explained {
      assert Drift(cash, journal, feeNet) - attributed == Drift(cash, journal, feeNet);
    }
  }

  lemma ResidualIsSmall(residual: real, external: real, unexplained: real, tol: real, n: int)
    requires Within(residual - external - unexplained, n) && Near(external + unexplained, tol, -n)
    ensures Abs(residual) <= tol
  {
  }

  lemma RoundedTwice(x: real)
    ensures Round2(Round2(x)) == Round2(x)
  {
    Round2OfCents(RoundHalfEven(x * 100.0));
  }

  lemma {:induction false} NothingExplainedBy(es: seq<Entry>, orders: Lookups)
    ensures Nonzero(es, orders, true) == [] ==> SumExplained(es, orders, true) == 0.0
  {
    if es != [] {
      NothingExplainedBy(es[..|es| - 1], orders);
    }
  }

  /** Without an explaining order nothing is attributed. */
  lemma {:induction false} NothingExplained(books: seq<BookView>, orders: Lookups)
    ensures InFlightIds(books, orders, true) == [] ==> Attributed(books, orders, true) == 0.0
  {
    if books != [] {
      NothingExplained(books[..|books| - 1], orders);
      NothingExplainedBy(Selected(Visible(books[|books| - 1])), orders);
    }
  }

  lemma InFlightResidual(cash: real, books: seq<BookView>, feeNet: real, orders: Lookups)
    requires Judge(Some(cash), books, feeNet, orders).InFlight?
    ensures Abs(Residual(cash, books, feeNet, orders)) <= Tolerance(Round2(cash))
  {
  }

  lemma Bounded(residual: real, external: real, unexplained: real, tol: real, n: int)
    requires Abs(residual) <= tol && Within(residual - external - unexplained, n)
    ensures Abs(external + unexplained) <= tol + 0.005 * n as real
  {
  }

  // ----- a journal whose query fails -----

  lemma {:induction false} ReadsAlike(books: seq<BookView>, i: nat, b: BookView, orders: Lookups)
    requires i < |books| && BookCash(b) == BookCash(books[i]) && Visible(b) == Visible(books[i])
    ensures JournalCash(books[i := b]) == JournalCash(books)
    ensures Attributed(books[i := b], orders, true) == Attributed(books, orders, true)
    ensures InFlightIds(books[i := b], orders, true) == InFlightIds(books, orders, true)
  {
    var init := books[..|books| - 1];
    if i < |init| {
      ReadsAlike(init, i, b, orders);
      assert books[i := b][..|books| - 1] == init[i := b];
    } else {
      assert books[i := b][..|books| - 1] == init;
    }
  }

  lemma FailsAlike(books: seq<BookView>, i: nat, b: BookView)
    requires i < |books| && !b.reading.FailedConnection? && !books[i].reading.FailedConnection?
    ensures SomeUnverifiable(books[i := b]) <==> SomeUnverifiable(books)
  {
    if SomeUnverifiable(books) {
      var j :| 0 <= j < |books| && books[j].reading.FailedConnection?;
      assert books[i := b][j] == books[j];
    }
  }

  /**
   A journal that opens but whose query fails does not make the account unverifiable: the audit judges it as a book of
   whole-cent capital that never traded.
   */
  lemma FailedQueryReadsAsUntraded(brokerCash: Option<real>, books: seq<BookView>, i: nat, feeNet: real,
                                   orders: Lookups)
    requires i < |books| && books[i].reading.FailedQuery? && Round2(books[i].initial) == books[i].initial
    ensures Judge(brokerCash, books, feeNet, orders)
         == Judge(brokerCash, books[i := BookView(books[i].initial, [], Full)], feeNet, orders)
  {
    var b := BookView(books[i].initial, [], Full);
    assert Cash(Rows(b.table)) == 0.0;
    ReadsAlike(books, i, b, orders);
    FailsAlike(books, i, b);
  }
}

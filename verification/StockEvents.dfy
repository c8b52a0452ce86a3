/**
 activities_capture.py: what any interleaving of the sibling books' passes books for an account-level stock event, a
 dividend or a cash merger.
 */
module StockEvents {
  import opened Money
  import opened Sums
  import opened Accounts
  import opened Journal
  import opened Writers
  import CP = CapturePass

  /** One book's turn: a pass writes one activity, or a trade is journaled. */
  datatype Turn = Pass(pid: int, event: Event) | Order(pid: int, row: Row)

  ghost function Took(tables: Tables, turn: Turn): (r: Tables)
    ensures r.Keys == tables.Keys
  {
    if turn.pid !in tables then tables
    else match turn
      case Pass(pid, e) => tables[pid := Step(pid, tables[pid], e)]
      case Order(pid, row) => tables[pid := tables[pid] + [row]]
  }

  ghost function After(tables: Tables, turns: seq<Turn>): (r: Tables)
    ensures r.Keys == tables.Keys
  {
    if turns == [] then tables else Took(After(tables, turns[..|turns| - 1]), turns[|turns| - 1])
  }

  /** Orders do not carry the activity's id. */
  ghost predicate NoOrderIs(turns: seq<Turn>, id: string) {
    forall i :: 0 <= i < |turns| && turns[i].Order? ==> turns[i].row.orderId != id
  }

  /** The pass's readings of the books add up to the broker's quantity, and all could be read. */
  ghost predicate Backed(e: Event) {
    match e
    case DividendPaid(_, _, amount, perShare, _, readings) =>
      && amount.Some? && AccountQty(amount.value, perShare).Some?
      && Attributed(readings, AccountQty(amount.value, perShare).value).Some?
    case CashMerger(_, _, removed, _, _, readings, _) => Attributed(readings, removed).Some?
    case _ => true
  }

  lemma BookingIsBacked(pid: int, rows: seq<Row>, e: Event)
    requires Decide(pid, rows, e).Booking?
    ensures Backed(e)
  {
  }

  /** What a book holds of an activity. */
  ghost predicate SameFor(before: seq<Row>, after: seq<Row>, id: string) {
    && SumRows(after, CashFor(id)) == SumRows(before, CashFor(id))
    && (HasActivity(after, id) <==> HasActivity(before, id))
  }

  lemma ClosingIsSame(rows: seq<Row>, t: Target, id: string)
    ensures SameFor(rows, CloseLive(rows, t), id)
  {
    CloseLiveKeeps(rows, t, CashFor(id));
    CloseLiveKeeps(rows, t, Mentions(id));
    MentionsCount(rows, id);
    MentionsCount(CloseLive(rows, t), id);
  }

  lemma ApplyIsSame(rows: seq<Row>, b: Booking, id: string)
    requires b.Booking? ==> b.row.orderId != id
    ensures SameFor(rows, Apply(rows, b), id)
  {
    if b.Booking? {
      OtherRow(rows, b.row, id);
      if b.closes.Some? {
        ClosingIsSame(rows + [b.row], b.closes.value, id);
      }
    }
  }

  /** An event leaves what the book holds of other activities alone. */
  lemma OtherEventIsSame(pid: int, rows: seq<Row>, e: Event, id: string)
    requires e.id != id
    ensures SameFor(rows, Step(pid, rows, e), id)
  {
    DecideClosed(pid, rows, e);
    ApplyIsSame(rows, Decide(pid, rows, e), id);
  }

  lemma OtherTurnIsSame(tables: Tables, turn: Turn, id: string, p: int)
    requires p in tables
    requires turn.pid == p ==> if turn.Pass? then turn.event.id != id else turn.row.orderId != id
    ensures SameFor(tables[p], Took(tables, turn)[p], id)
  {
    if turn.pid == p {
      match turn
      case Pass(pid, e) => OtherEventIsSame(pid, tables[p], e, id);
      case Order(pid, row) => OtherRow(tables[p], row, id);
    }
  }

  ghost predicate PassedWith(turns: seq<Turn>, p: int, i: int, id: string) {
    0 <= i < |turns| && turns[i].Pass? && turns[i].pid == p && turns[i].event.id == id
  }

  /**
   A row of a stock event is in a journal only because a pass of that very book had readings of all books that add up to
   the broker's quantity, whatever the passes in between could or could not read.
   */
  lemma {:induction false} BookedOnlyIfBacked(tables: Tables, turns: seq<Turn>, id: string, p: int)
    requires p in tables && !HasActivity(tables[p], id) && NoOrderIs(turns, id)
    ensures HasActivity(After(tables, turns)[p], id) ==>
              exists i :: PassedWith(turns, p, i, id) && Backed(turns[i].event)
  {
    if turns != [] {
      var init, last := turns[..|turns| - 1], turns[|turns| - 1];
      var mid := After(tables, init);
      BookedOnlyIfBacked(tables, init, id, p);
      if HasActivity(After(tables, turns)[p], id) {
        if HasActivity(mid[p], id) {
          var i :| PassedWith(init, p, i, id) && Backed(init[i].event);
          assert PassedWith(turns, p, i, id) && turns[i] == init[i];
        } else if last.Pass? && last.pid == p && last.event.id == id {
          BookingIsBacked(p, mid[p], last.event);
          assert PassedWith(turns, p, |turns| - 1, id);
        } else {
          OtherTurnIsSame(mid, last, id, p);
          assert false;
        }
      }
    }
  }

  // ----- a dividend over the account -----

  /** What a pass on the dividend owes book p. */
  ghost function Owed(ev: Event, p: int): real
    requires ev.DividendPaid?
  {
    if ev.dated && Backed(ev)
    then OwnDividend(OwnShare(p, ev.readings, AccountQty(ev.amount.value, ev.perShare).value), ev.perShare)
    else 0.0
  }

  ghost predicate Refused(e: Event) {
    e.DividendPaid? && (!e.dated || !Backed(e))
  }

  /** The activity id stands for a dividend in every pass. */
  ghost predicate DividendsOnly(turns: seq<Turn>, id: string) {
    forall i :: 0 <= i < |turns| && turns[i].Pass? && turns[i].event.id == id ==> turns[i].event.DividendPaid?
  }

  /** What the turn books for book p that holds nothing of the dividend yet. */
  ghost function Pays(turn: Turn, p: int, id: string): real {
    if turn.Pass? && turn.pid == p && turn.event.id == id && turn.event.DividendPaid? then Owed(turn.event, p) else 0.0
  }

  /** What the passes so far owe book p: its own share in the first of its passes that owes it anything. */
  ghost function Held(turns: seq<Turn>, p: int, id: string): real {
    if turns == [] then 0.0
    else
      var before := Held(turns[..|turns| - 1], p, id);
      if before != 0.0 then before else Pays(turns[|turns| - 1], p, id)
  }

  lemma {:induction false} HeldIsFirst(turns: seq<Turn>, p: int, id: string)
    ensures if Held(turns, p, id) == 0.0 then forall i :: 0 <= i < |turns| ==> Pays(turns[i], p, id) == 0.0
            else exists i :: 0 <= i < |turns| && Pays(turns[i], p, id) == Held(turns, p, id)
                             && forall j :: 0 <= j < i ==> Pays(turns[j], p, id) == 0.0
  {
    if turns != [] {
      var init := turns[..|turns| - 1];
      HeldIsFirst(init, p, id);
      assert forall i :: 0 <= i < |init| ==> init[i] == turns[i];
      if Held(init, p, id) != 0.0 {
        var i :| 0 <= i < |init| && Pays(init[i], p, id) == Held(init, p, id)
                 && forall j :: 0 <= j < i ==> Pays(init[j], p, id) == 0.0;
        assert Pays(turns[i], p, id) == Held(turns, p, id);
      } else if Held(turns, p, id) != 0.0 {
        assert Pays(turns[|turns| - 1], p, id) == Held(turns, p, id);
      }
    }
  }

  lemma RefusedBooksNothing(pid: int, rows: seq<Row>, e: Event)
    requires Refused(e)
    ensures Step(pid, rows, e) == rows
  {
  }

  lemma DividendIsBooked(pid: int, rows: seq<Row>, ev: Event)
    requires ev.DividendPaid? && ev.id != "" && !Refused(ev) && !HasActivity(rows, ev.id)
    ensures SumRows(Step(pid, rows, ev), CashFor(ev.id)) == Owed(ev, pid)
    ensures HasActivity(Step(pid, rows, ev), ev.id) <==> Owed(ev, pid) != 0.0
  {
    CP.DividendBooksOwnShare(pid, rows, ev);
    NoActivityNoCash(rows, ev.id);
    var b := Decide(pid, rows, ev);
    if b.Booking? {
      HasActivityAppend(rows, b.row, ev.id);
    }
  }

  lemma SeenIsKept(pid: int, rows: seq<Row>, ev: Event)
    requires ev.DividendPaid? && HasActivity(rows, ev.id)
    ensures Step(pid, rows, ev) == rows
  {
  }

  ghost predicate Holds(rows: seq<Row>, id: string, amount: real) {
    SumRows(rows, CashFor(id)) == amount && (HasActivity(rows, id) <==> amount != 0.0)
  }

  lemma PassHolds(pid: int, rows: seq<Row>, ev: Event, before: real)
    requires ev.DividendPaid? && ev.id != "" && Holds(rows, ev.id, before)
    ensures Holds(Step(pid, rows, ev), ev.id, if before != 0.0 then before else Owed(ev, pid))
  {
    if HasActivity(rows, ev.id) {
      SeenIsKept(pid, rows, ev);
    } else if Refused(ev) {
      RefusedBooksNothing(pid, rows, ev);
    } else {
      DividendIsBooked(pid, rows, ev);
    }
  }

  /** Under any interleaving, whatever the passes read, a book holds its share of its first pass that owes it one. */
  lemma {:induction false} DividendState(tables: Tables, turns: seq<Turn>, id: string, p: int)
    requires id != "" && p in tables && !HasActivity(tables[p], id) && NoOrderIs(turns, id) && DividendsOnly(turns, id)
    ensures Holds(After(tables, turns)[p], id, Held(turns, p, id))
  {
    if turns == [] {
      NoActivityNoCash(tables[p], id);
    } else {
      var init, last := turns[..|turns| - 1], turns[|turns| - 1];
      var mid := After(tables, init);
      DividendState(tables, init, id, p);
      if last.Pass? && last.pid == p && last.event.id == id {
        PassHolds(p, mid[p], last.event, Held(init, p, id));
      } else {
        OtherTurnIsSame(mid, last, id, p);
      }
    }
  }

  ghost function Shares(tables: Tables, turns: seq<Turn>, id: string): (r: Amounts)
    ensures r.Keys == tables.Keys
  {
    map p | p in tables :: Held(turns, p, id)
  }

  /** So the account holds the sum of those shares. */
  lemma BookedIsShares(tables: Tables, turns: seq<Turn>, id: string)
    requires id != "" && !Journaled(tables, id) && NoOrderIs(turns, id) && DividendsOnly(turns, id)
    ensures BookedCash(After(tables, turns), id) == Total(Shares(tables, turns, id))
  {
    forall p | p in tables ensures CashesFor(After(tables, turns), id)[p] == Shares(tables, turns, id)[p] {
      DividendState(tables, turns, id, p);
    }
    SumCongruent(tables.Keys, CashesFor(After(tables, turns), id), Shares(tables, turns, id));
  }

  /** Every pass over the dividend either refused it or owes its book what `ev` does. */
  ghost predicate SameShares(turns: seq<Turn>, ev: Event)
    requires ev.DividendPaid?
  {
    forall i :: 0 <= i < |turns| && turns[i].Pass? && turns[i].event.id == ev.id && !Refused(turns[i].event) ==>
                  Pays(turns[i], turns[i].pid, ev.id) == Owed(ev, turns[i].pid)
  }

  /** A pass of book p on the activity was not refused. */
  ghost predicate HasPassed(turns: seq<Turn>, p: int, id: string) {
    exists i :: PassedWith(turns, p, i, id) && !Refused(turns[i].event)
  }

  lemma HeldIsOwed(turns: seq<Turn>, p: int, ev: Event)
    requires ev.DividendPaid? && SameShares(turns, ev) && HasPassed(turns, p, ev.id)
    ensures Held(turns, p, ev.id) == Owed(ev, p)
  {
    HeldIsFirst(turns, p, ev.id);
    var i :| PassedWith(turns, p, i, ev.id) && !Refused(turns[i].event);
    assert Pays(turns[i], p, ev.id) == Owed(ev, p);
    if Held(turns, p, ev.id) != 0.0 {
      var k :| 0 <= k < |turns| && Pays(turns[k], p, ev.id) == Held(turns, p, ev.id);
      assert turns[k].pid == p && !Refused(turns[k].event);
    }
  }

  /** Nothing is booked yet, every pass that is not refused owes what `ev` does, and every sibling has such a pass. */
  ghost predicate AllAgree(tables: Tables, turns: seq<Turn>, ev: Event) {
    && ev.DividendPaid? && ev.id != "" && !Refused(ev)
    && ev.readings.value.Keys == tables.Keys
    && !Journaled(tables, ev.id) && NoOrderIs(turns, ev.id) && DividendsOnly(turns, ev.id) && SameShares(turns, ev)
    && forall p :: p in tables ==> HasPassed(turns, p, ev.id)
  }

  lemma OwedIsDividend(ev: Event, p: int)
    requires ev.DividendPaid? && !Refused(ev) && p in ev.readings.value
    ensures Owed(ev, p) == CP.Dividends(Values(ev.readings.value), ev.perShare)[p]
  {
  }

  lemma SharesAre(tables: Tables, turns: seq<Turn>, id: string, dividends: Amounts)
    requires dividends.Keys == tables.Keys && forall p :: p in tables ==> Held(turns, p, id) == dividends[p]
    ensures Shares(tables, turns, id) == dividends
  {
  }

  lemma HeldIsDividend(turns: seq<Turn>, p: int, ev: Event)
    requires ev.DividendPaid? && SameShares(turns, ev) && HasPassed(turns, p, ev.id)
    requires !Refused(ev) && p in ev.readings.value
    ensures Held(turns, p, ev.id) == CP.Dividends(Values(ev.readings.value), ev.perShare)[p]
  {
    HeldIsOwed(turns, p, ev);
    OwedIsDividend(ev, p);
  }

  /** After every sibling's pass the shares are the dividends of the split. */
  lemma AllPassedHold(tables: Tables, turns: seq<Turn>, ev: Event)
    requires AllAgree(tables, turns, ev)
    ensures Shares(tables, turns, ev.id) == CP.Dividends(Values(ev.readings.value), ev.perShare)
  {
    var dividends := CP.Dividends(Values(ev.readings.value), ev.perShare);
    forall p | p in tables ensures Held(turns, p, ev.id) == dividends[p] {
      HeldIsDividend(turns, p, ev);
    }
    SharesAre(tables, turns, ev.id, dividends);
  }

  /**
   Once every sibling has passed on a dividend whose books hold whole shares, by readings that agree on the shares, the
   cash booked for it over all journals differs from the broker's net by at most half a cent per holding book plus the
   1.1 cents of the whole-share test.
   */
  lemma AllPassedDecomposes(tables: Tables, turns: seq<Turn>, ev: Event)
    requires AllAgree(tables, turns, ev) && CP.WholeShares(Values(ev.readings.value))
    ensures Abs(BookedCash(After(tables, turns), ev.id) - ev.amount.value)
         <= 0.005 * |CP.Holders(Values(ev.readings.value))| as real + 0.011
  {
    AllPassedBooksDividends(tables, turns, ev);
    AcceptedDecomposes(ev);
  }

  lemma AcceptedDecomposes(ev: Event)
    requires ev.DividendPaid? && !Refused(ev) && CP.WholeShares(Values(ev.readings.value))
    ensures Abs(Total(CP.Dividends(Values(ev.readings.value), ev.perShare)) - ev.amount.value)
         <= 0.005 * |CP.Holders(Values(ev.readings.value))| as real + 0.011
  {
    CP.DividendDecomposes(ev.readings.value, ev.amount.value, ev.perShare);
  }

  lemma AllPassedBooksDividends(tables: Tables, turns: seq<Turn>, ev: Event)
    requires AllAgree(tables, turns, ev)
    ensures BookedCash(After(tables, turns), ev.id) == Total(CP.Dividends(Values(ev.readings.value), ev.perShare))
  {
    BookedIsShares(tables, turns, ev.id);
    AllPassedHold(tables, turns, ev);
  }
}

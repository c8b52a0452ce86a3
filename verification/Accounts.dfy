/** The trades tables of the sibling books on one broker account, and what they have booked for an activity. */
module Accounts {
  import opened Sums
  import opened Journal

  type Tables = map<int, seq<Row>>

  ghost predicate Journaled(tables: Tables, id: string) {
    exists p :: p in tables && HasActivity(tables[p], id)
  }

  function CashesFor(tables: Tables, id: string): (r: Amounts)
    ensures r.Keys == tables.Keys
  {
    map p | p in tables :: SumRows(tables[p], CashFor(id))
  }

  /** The cash all books together have booked for an activity. */
  ghost function BookedCash(tables: Tables, id: string): real {
    Total(CashesFor(tables, id))
  }

  lemma {:induction false} NoActivityNoCash(rows: seq<Row>, id: string)
    requires !HasActivity(rows, id)
    ensures SumRows(rows, CashFor(id)) == 0.0
  {
    if rows != [] {
      var init := rows[..|rows| - 1];
      assert forall i :: 0 <= i < |init| ==> init[i] == rows[i];
      NoActivityNoCash(init, id);
    }
  }

  lemma NotJournaledNoCash(tables: Tables, id: string)
    requires !Journaled(tables, id)
    ensures BookedCash(tables, id) == 0.0
  {
    forall p | p in tables ensures CashesFor(tables, id)[p] == 0.0 {
      NoActivityNoCash(tables[p], id);
    }
    SumOfZeros(tables.Keys, CashesFor(tables, id));
  }

  function CashIf(row: Row, id: string): real {
    if row.orderId == id then CashFlow(row) else 0.0
  }

  lemma CashesAppend(tables: Tables, pid: int, row: Row, id: string, p: int)
    requires pid in tables && p in tables
    ensures CashesFor(tables[pid := tables[pid] + [row]], id)[p]
         == CashesFor(tables, id)[p] + if p == pid then CashIf(row, id) else 0.0
  {
    SumAppend(tables[pid], row, CashFor(id));
  }

  lemma AppendCash(tables: Tables, pid: int, row: Row, id: string)
    requires pid in tables
    ensures BookedCash(tables[pid := tables[pid] + [row]], id) == BookedCash(tables, id) + CashIf(row, id)
  {
    var after := tables[pid := tables[pid] + [row]];
    assert after.Keys == tables.Keys;
    forall p | p in tables
      ensures CashesFor(after, id)[p] == CashesFor(tables, id)[p] + if p == pid then CashIf(row, id) else 0.0
    {
      CashesAppend(tables, pid, row, id, p);
    }
    SumChangedAt(tables.Keys, CashesFor(tables, id), CashesFor(after, id), pid);
  }

  lemma HasActivityAppend(rows: seq<Row>, row: Row, id: string)
    ensures HasActivity(rows + [row], id) <==> HasActivity(rows, id) || row.orderId == id
  {
    var after := rows + [row];
    assert after[|rows|] == row;
    assert forall i :: 0 <= i < |rows| ==> after[i] == rows[i];
  }

  /** A row for another order leaves what a book booked for an activity alone. */
  lemma OtherRow(rows: seq<Row>, row: Row, id: string)
    requires row.orderId != id
    ensures SumRows(rows + [row], Mentions(id)) == SumRows(rows, Mentions(id))
    ensures SumRows(rows + [row], CashFor(id)) == SumRows(rows, CashFor(id))
    ensures HasActivity(rows + [row], id) <==> HasActivity(rows, id)
  {
    SumAppend(rows, row, Mentions(id));
    SumAppend(rows, row, CashFor(id));
    HasActivityAppend(rows, row, id);
  }

  /** The first row of an activity is its only one. */
  lemma FirstRow(rows: seq<Row>, row: Row)
    requires !HasActivity(rows, row.orderId)
    ensures SumRows(rows + [row], Mentions(row.orderId)) == 1.0
    ensures SumRows(rows + [row], CashFor(row.orderId)) == CashFlow(row)
    ensures HasActivity(rows + [row], row.orderId)
  {
    SumAppend(rows, row, Mentions(row.orderId));
    SumAppend(rows, row, CashFor(row.orderId));
    MentionsCount(rows, row.orderId);
    NoActivityNoCash(rows, row.orderId);
    HasActivityAppend(rows, row, row.orderId);
  }

  lemma TablesAre(before: Tables, after: Tables, pid: int, rows: seq<Row>)
    requires pid in before && after.Keys == before.Keys && after[pid] == rows
    requires forall p :: p in before && p != pid ==> after[p] == before[p]
    ensures after == before[pid := rows]
  {
    var m := before[pid := rows];
    assert m.Keys == after.Keys;
    assert forall p :: p in after ==> after[p] == m[p];
  }
}

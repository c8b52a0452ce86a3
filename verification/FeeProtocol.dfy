/**
 The shared-account fee protocol: the broker charges fees to the account, every sibling book runs its own passes in
 any order and as often as it likes, trades keep settling, and the cash-parity audit may look at any moment.
 */
module FeeProtocol {
  import opened Money
  import opened Sums
  import opened Accounts
  import opened Journal
  import opened Writers
  import opened FeeCapture
  import LR = LargestRemainder
  import SC = SplitCents

  /**
   `accepted` remembers the first split computed for a fee and `passed` the books whose pass on a fee went through;
   both only record history.
   */
  datatype Account = Account(brokerCash: real, initial: Amounts, tables: Tables, fees: seq<Fee>,
                             accepted: map<string, map<int, int>>, passed: set<(int, string)>)

  /** What one pass is told about the fee's day: the account's fills, and the parents of leg orders. */
  datatype Day = Day(fills: seq<Fill>, parents: map<string, string>)

  datatype Step =
    | Charge(fee: Fee)
    | Trade(pid: int, row: Row)
    | Pass(pid: int, index: nat, env: Env, day: Day)

  const ALL_OK: Env := Env(true, true, true, {})

  /** The order ids that decide who owns the fills of a fee's day. */
  function DayIds(f: Fee): set<string> {
    OrderIds(f.fills) + set oid | oid in f.parents :: f.parents[oid]
  }

  ghost predicate FreshId(s: Account, id: string) {
    && (forall i :: 0 <= i < |s.fees| ==> s.fees[i].id != id)
    && (forall p :: p in s.tables ==> !HasActivity(s.tables[p], id))
  }

  /** A fee comes with a new activity id, and a trade's order id is not one of them. */
  ghost predicate Enabled(s: Account, step: Step) {
    match step
    case Charge(fee) => fee.id != "" && FreshId(s, fee.id)
    case Trade(pid, row) => pid in s.tables && forall i :: 0 <= i < |s.fees| ==> s.fees[i].id != row.orderId
    case Pass(pid, i, _, _) => pid in s.tables && i < |s.fees|
  }

  function Seen(f: Fee, day: Day): Fee {
    f.(fills := day.fills, parents := day.parents)
  }

  /** The split a pass on fee i computes from what it is told. */
  ghost function Computed(order: seq<int>, s: Account, i: nat, env: Env, day: Day): Option<map<int, int>>
    requires i < |s.fees|
  {
    Split(order, s.tables, Seen(s.fees[i], day), env)
  }

  ghost function Next(order: seq<int>, s: Account, step: Step): Account
    requires Enabled(s, step)
  {
    match step
    case Charge(fee) => s.(brokerCash := s.brokerCash + fee.net, fees := s.fees + [fee])
    case Trade(pid, row) =>
      s.(brokerCash := s.brokerCash + CashFlow(row), tables := s.tables[pid := s.tables[pid] + [row]])
    case Pass(pid, i, env, day) =>
      var fee := Seen(s.fees[i], day);
      AfterPass(s, pid, fee, Computed(order, s, i, env, day),
                Writers.Step(pid, s.tables[pid],
                             FeeShare(fee.id, fee.net, Due(pid, order, s.tables, fee, env))))
  }

  /** The account after book pid's pass on a fee computed `split` and left `rows` in its table. */
  function AfterPass(s: Account, pid: int, fee: Fee, split: Option<map<int, int>>, rows: seq<Row>): Account
    requires pid in s.tables
  {
    s.(tables := s.tables[pid := rows],
       accepted := if split.Some? && fee.id !in s.accepted then s.accepted[fee.id := split.value] else s.accepted,
       passed := if split.Some? || HasActivity(s.tables[pid], fee.id) then s.passed + {(pid, fee.id)} else s.passed)
  }

  ghost predicate Runs(order: seq<int>, s: Account, steps: seq<Step>)
    decreases |steps|, 0
  {
    steps == [] || (Runs(order, s, steps[..|steps| - 1])
                    && Enabled(After(order, s, steps[..|steps| - 1]), steps[|steps| - 1]))
  }

  ghost function After(order: seq<int>, s: Account, steps: seq<Step>): Account
    requires Runs(order, s, steps)
    decreases |steps|, 1
  {
    if steps == [] then s
    else Next(order, After(order, s, steps[..|steps| - 1]), steps[|steps| - 1])
  }

  ghost predicate Initial(order: seq<int>, s: Account) {
    && LR.Distinct(order) && LR.Elements(order) == s.tables.Keys == s.initial.Keys
    && s.fees == [] && s.accepted == map[] && s.passed == {}
  }

  // ----- what the audit computes -----

  function Balances(initial: Amounts, tables: Tables): (r: Amounts)
    requires initial.Keys == tables.Keys
    ensures r.Keys == tables.Keys
  {
    map p | p in tables :: initial[p] + Cash(tables[p])
  }

  /** `_account_fee_net`: the fees no book has journaled. */
  ghost function FeeNet(fees: seq<Fee>, tables: Tables): real {
    if fees == [] then 0.0
    else
      var f := fees[|fees| - 1];
      FeeNet(fees[..|fees| - 1], tables) + if Journaled(tables, f.id) then 0.0 else f.net
  }

  /** broker cash − (Σ journal cash + fee net) */
  ghost function Parity(s: Account): real
    requires s.initial.Keys == s.tables.Keys
  {
    s.brokerCash - (Total(Balances(s.initial, s.tables)) + FeeNet(s.fees, s.tables))
  }

  /** The signed part of a partly booked fee that no book has booked yet. */
  ghost function Unbooked(tables: Tables, f: Fee): real {
    if Journaled(tables, f.id) then f.net - BookedCash(tables, f.id) else 0.0
  }

  ghost function AllUnbooked(fees: seq<Fee>, tables: Tables): real {
    if fees == [] then 0.0
    else AllUnbooked(fees[..|fees| - 1], tables) + Unbooked(tables, fees[|fees| - 1])
  }

  // ----- parity: booking a fee never moves it -----

  /** Net charged minus cash booked, over all fees. */
  ghost function Outstanding(fees: seq<Fee>, tables: Tables): real {
    if fees == [] then 0.0
    else
      var f := fees[|fees| - 1];
      Outstanding(fees[..|fees| - 1], tables) + f.net - BookedCash(tables, f.id)
  }

  lemma {:induction false} OutstandingSplits(fees: seq<Fee>, tables: Tables)
    ensures FeeNet(fees, tables) + AllUnbooked(fees, tables) == Outstanding(fees, tables)
  {
    if fees != [] {
      OutstandingSplits(fees[..|fees| - 1], tables);
      if !Journaled(tables, fees[|fees| - 1].id) {
        NotJournaledNoCash(tables, fees[|fees| - 1].id);
      }
    }
  }

  ghost predicate DistinctFees(fees: seq<Fee>) {
    forall i, j :: 0 <= i < j < |fees| ==> fees[i].id != fees[j].id
  }

  ghost predicate Charged(fees: seq<Fee>, id: string) {
    exists i :: 0 <= i < |fees| && fees[i].id == id
  }

  lemma ChargedLast(fees: seq<Fee>, id: string)
    requires fees != [] && DistinctFees(fees)
    ensures Charged(fees, id) <==> Charged(fees[..|fees| - 1], id) || fees[|fees| - 1].id == id
    ensures !(Charged(fees[..|fees| - 1], id) && fees[|fees| - 1].id == id)
  {
    var init := fees[..|fees| - 1];
    assert forall i :: 0 <= i < |init| ==> init[i] == fees[i];
  }

  /** A new row takes its cash off the one fee it is booked for. */
  lemma {:induction false} AppendOutstanding(fees: seq<Fee>, tables: Tables, pid: int, row: Row)
    requires pid in tables && DistinctFees(fees)
    ensures Outstanding(fees, tables[pid := tables[pid] + [row]])
         == Outstanding(fees, tables) - if Charged(fees, row.orderId) then CashFlow(row) else 0.0
  {
    if fees != [] {
      var init, f := fees[..|fees| - 1], fees[|fees| - 1];
      AppendOutstanding(init, tables, pid, row);
      AppendCash(tables, pid, row, f.id);
      ChargedLast(fees, row.orderId);
    }
  }

  lemma AppendBalance(s: Account, pid: int, row: Row)
    requires pid in s.tables && s.initial.Keys == s.tables.Keys
    ensures s.tables[pid := s.tables[pid] + [row]].Keys == s.tables.Keys
    ensures Total(Balances(s.initial, s.tables[pid := s.tables[pid] + [row]]))
         == Total(Balances(s.initial, s.tables)) + CashFlow(row)
  {
    var after := s.tables[pid := s.tables[pid] + [row]];
    assert after.Keys == s.tables.Keys;
    SumAppend(s.tables[pid], row, CashLens);
    SumChangedAt(s.tables.Keys, Balances(s.initial, s.tables), Balances(s.initial, after), pid);
  }

  /** Broker cash minus journal cash minus what is still outstanding: no step moves it. */
  ghost function Settled(s: Account): real
    requires s.initial.Keys == s.tables.Keys
  {
    s.brokerCash - Total(Balances(s.initial, s.tables)) - Outstanding(s.fees, s.tables)
  }

  // ----- whatever the order of steps -----

  /** Fees have distinct ids, and no journal holds two rows for one fee. */
  ghost predicate Basic(s: Account) {
    && s.initial.Keys == s.tables.Keys
    && DistinctFees(s.fees)
    && (forall i :: 0 <= i < |s.fees| ==> s.fees[i].id != "")
    && (forall i, p :: 0 <= i < |s.fees| && p in s.tables ==> SumRows(s.tables[p], Mentions(s.fees[i].id)) <= 1.0)
  }

  function DueOf(split: Option<map<int, int>>, pid: int): int {
    if split.Some? && pid in split.value then split.value[pid] else 0
  }

  function FeeRow(f: Fee, cents: int): Row {
    CashRow(f.id, "FEE", Signed(f.net, cents), Signed(f.net, cents))
  }

  function Signed(net: real, cents: int): real {
    if net < 0.0 then -Cents(cents) else Cents(cents)
  }

  predicate BooksOf(rows: seq<Row>, f: Fee, due: int) {
    !HasActivity(rows, f.id) && f.net != 0.0 && due > 0
  }

  /** What a pass in which book pid is due so many cents leaves of its table. */
  function RowsAfter(rows: seq<Row>, f: Fee, due: int): seq<Row> {
    if BooksOf(rows, f, due) then rows + [FeeRow(f, due)] else rows
  }

  lemma PassRows(rows: seq<Row>, pid: int, f: Fee, due: int)
    requires f.id != ""
    ensures Writers.Step(pid, rows, FeeShare(f.id, f.net, due)) == RowsAfter(rows, f, due)
  {
  }

  /** A pass changes nothing but its own table and the records. */
  ghost predicate OnlyOwn(s: Account, pid: int, f: Fee, due: int, t: Account) {
    && pid in s.tables && t.tables == s.tables[pid := RowsAfter(s.tables[pid], f, due)]
    && t.fees == s.fees && t.initial == s.initial && t.brokerCash == s.brokerCash
  }

  lemma PassIsOwn(order: seq<int>, s: Account, pid: int, i: nat, env: Env, day: Day)
    requires pid in s.tables && i < |s.fees| && s.fees[i].id != ""
    ensures OnlyOwn(s, pid, s.fees[i], DueOf(Computed(order, s, i, env, day), pid),
                    Next(order, s, Pass(pid, i, env, day)))
  {
    PassRows(s.tables[pid], pid, s.fees[i], DueOf(Computed(order, s, i, env, day), pid));
  }

  lemma ChargeSettled(s: Account, fee: Fee)
    requires s.initial.Keys == s.tables.Keys && FreshId(s, fee.id)
    ensures Settled(s.(brokerCash := s.brokerCash + fee.net, fees := s.fees + [fee])) == Settled(s)
  {
    assert (s.fees + [fee])[..|s.fees|] == s.fees;
    NotJournaledNoCash(s.tables, fee.id);
  }

  lemma TradeSettled(s: Account, pid: int, row: Row)
    requires s.initial.Keys == s.tables.Keys && DistinctFees(s.fees) && Enabled(s, Trade(pid, row))
    ensures Settled(s.(brokerCash := s.brokerCash + CashFlow(row), tables := s.tables[pid := s.tables[pid] + [row]]))
         == Settled(s)
  {
    AppendBalance(s, pid, row);
    AppendOutstanding(s.fees, s.tables, pid, row);
  }

  lemma BookingSettled(s: Account, pid: int, row: Row)
    requires s.initial.Keys == s.tables.Keys && DistinctFees(s.fees) && pid in s.tables && Charged(s.fees, row.orderId)
    ensures s.tables[pid := s.tables[pid] + [row]].Keys == s.initial.Keys
    ensures Settled(s.(tables := s.tables[pid := s.tables[pid] + [row]])) == Settled(s)
  {
    AppendBalance(s, pid, row);
    AppendOutstanding(s.fees, s.tables, pid, row);
  }

  lemma SettledIgnoresRecords(s: Account, t: Account)
    requires s.initial.Keys == s.tables.Keys
    requires t.brokerCash == s.brokerCash && t.initial == s.initial && t.tables == s.tables && t.fees == s.fees
    ensures t.initial.Keys == t.tables.Keys && Settled(t) == Settled(s)
  {
  }

  lemma PassSettled(s: Account, pid: int, i: nat, due: int, t: Account)
    requires s.initial.Keys == s.tables.Keys && DistinctFees(s.fees) && i < |s.fees|
    requires OnlyOwn(s, pid, s.fees[i], due, t)
    ensures t.initial.Keys == t.tables.Keys && Settled(t) == Settled(s)
  {
    var f := s.fees[i];
    if BooksOf(s.tables[pid], f, due) {
      assert Charged(s.fees, FeeRow(f, due).orderId);
      BookingSettled(s, pid, FeeRow(f, due));
      SettledIgnoresRecords(s.(tables := t.tables), t);
    } else {
      assert s.tables[pid := s.tables[pid]] == s.tables;
      SettledIgnoresRecords(s, t);
    }
  }

  /** No step moves broker cash minus journal cash minus outstanding fees. */
  lemma NextSettled(order: seq<int>, s: Account, step: Step)
    requires Basic(s) && Enabled(s, step)
    ensures Next(order, s, step).initial.Keys == Next(order, s, step).tables.Keys
    ensures Settled(Next(order, s, step)) == Settled(s)
  {
    match step
    case Charge(fee) => ChargeSettled(s, fee);
    case Trade(pid, row) => TradeSettled(s, pid, row);
    case Pass(pid, i, env, day) =>
      PassIsOwn(order, s, pid, i, env, day);
      PassSettled(s, pid, i, DueOf(Computed(order, s, i, env, day), pid), Next(order, s, step));
  }

  lemma RowsAfterOnce(rows: seq<Row>, f: Fee, due: int, id: string)
    requires SumRows(rows, Mentions(id)) <= 1.0
    ensures SumRows(RowsAfter(rows, f, due), Mentions(id)) <= 1.0
  {
    if BooksOf(rows, f, due) {
      if id == f.id {
        FirstRow(rows, FeeRow(f, due));
      } else {
        OtherRow(rows, FeeRow(f, due), id);
      }
    }
  }

  lemma NextOnce(order: seq<int>, s: Account, step: Step, i: nat, p: int)
    requires Basic(s) && Enabled(s, step) && i < |Next(order, s, step).fees| && p in Next(order, s, step).tables
    ensures SumRows(Next(order, s, step).tables[p], Mentions(Next(order, s, step).fees[i].id)) <= 1.0
  {
    match step
    case Charge(fee) =>
      if i < |s.fees| {
        assert Next(order, s, step).fees[i] == s.fees[i];
      } else {
        MentionsCount(s.tables[p], fee.id);
      }
    case Trade(pid, row) =>
      if p == pid {
        OtherRow(s.tables[p], row, s.fees[i].id);
      }
    case Pass(pid, k, env, day) =>
      PassIsOwn(order, s, pid, k, env, day);
      RowsAfterOnce(s.tables[p], s.fees[k], DueOf(Computed(order, s, k, env, day), pid), s.fees[i].id);
  }

  lemma NextBasic(order: seq<int>, s: Account, step: Step)
    requires Basic(s) && Enabled(s, step)
    ensures Basic(Next(order, s, step))
  {
    var t := Next(order, s, step);
    NextSettled(order, s, step);
    assert forall i :: 0 <= i < |s.fees| ==> t.fees[i] == s.fees[i];
    forall i, p | 0 <= i < |t.fees| && p in t.tables ensures SumRows(t.tables[p], Mentions(t.fees[i].id)) <= 1.0 {
      NextOnce(order, s, step, i, p);
    }
  }

  lemma {:induction false} RunSettled(order: seq<int>, s: Account, steps: seq<Step>)
    requires Basic(s) && Runs(order, s, steps)
    ensures Basic(After(order, s, steps)) && Settled(After(order, s, steps)) == Settled(s)
  {
    if steps != [] {
      var mid := After(order, s, steps[..|steps| - 1]);
      RunSettled(order, s, steps[..|steps| - 1]);
      NextBasic(order, mid, steps[|steps| - 1]);
      NextSettled(order, mid, steps[|steps| - 1]);
    }
  }

  /** Exactly once: under any run, no journal ever holds two rows for one fee. */
  lemma FeesBookedOnce(order: seq<int>, s: Account, steps: seq<Step>, i: nat, p: int)
    requires Basic(s) && Runs(order, s, steps)
    requires i < |After(order, s, steps).fees| && p in After(order, s, steps).tables
    ensures SumRows(After(order, s, steps).tables[p], Mentions(After(order, s, steps).fees[i].id)) <= 1.0
  {
    RunSettled(order, s, steps);
  }

  /**
   At every reachable state of the interleaved passes, cash parity less the unbooked signed shares of the partly booked
   fees is what it was at the start: neither a charge, nor a trade of whatever order, nor a booking moves it, whatever
   fills the passes are told. From a start without fees, parity is its starting value plus those shares.
   */
  lemma ParityIsUnbookedShares(order: seq<int>, s: Account, steps: seq<Step>)
    requires Basic(s) && Runs(order, s, steps)
    ensures var t := After(order, s, steps);
            && t.initial.Keys == t.tables.Keys
            && Parity(t) - AllUnbooked(t.fees, t.tables) == Parity(s) - AllUnbooked(s.fees, s.tables)
            && (s.fees == [] ==> Parity(t) == Parity(s) + AllUnbooked(t.fees, t.tables))
  {
    var t := After(order, s, steps);
    RunSettled(order, s, steps);
    OutstandingSplits(s.fees, s.tables);
    OutstandingSplits(t.fees, t.tables);
  }

  // ----- what leaves a split alone -----

  /** Two books have the order of some fill on record. */
  ghost predicate Contested(order: seq<int>, tables: Tables, f: Fee) {
    !Uncontested(order, AllRecorded(tables), f.fills)
  }

  ghost predicate SameOwners(order: seq<int>, a: Tables, b: Tables, f: Fee) {
    forall oid :: oid in OrderIds(f.fills) ==>
                    Owner(order, AllRecorded(a), f.parents, oid) == Owner(order, AllRecorded(b), f.parents, oid)
  }

  /** A trade takes no fill of the fee's day from its owner, or else it makes a fill contested. */
  ghost predicate Harmless(order: seq<int>, tables: Tables, pid: int, row: Row, f: Fee)
    requires pid in tables
  {
    var after := tables[pid := tables[pid] + [row]];
    Contested(order, after, f) || SameOwners(order, tables, after, f)
  }

  /** Where no fill is contested, the owners decide the attribution. */
  lemma AttributionByOwners(order: seq<int>, ids: Ids, fills: seq<Fill>, parents: map<string, string>)
    requires Uncontested(order, ids, fills)
    ensures Attribution(order, ids, fills, Some(parents))
         == if AllOwned(order, ids, parents, fills) then Owned(OwnersOf(order, ids, parents, fills)) else Refused
  {
    assert forall g :: g in fills ==> g.orderId in OrderIds(fills);
    if Direct(order, ids, fills) {
      assert AllOwned(order, ids, parents, fills);
      assert DirectOwners(order, ids, fills) == OwnersOf(order, ids, parents, fills);
    }
  }

  lemma OwnersDecideAttribution(order: seq<int>, a: Ids, b: Ids, fills: seq<Fill>, parents: map<string, string>)
    requires Uncontested(order, a, fills) && Uncontested(order, b, fills)
    requires forall oid :: oid in OrderIds(fills) ==> Owner(order, a, parents, oid) == Owner(order, b, parents, oid)
    ensures Attribution(order, a, fills, Some(parents)) == Attribution(order, b, fills, Some(parents))
  {
    AttributionByOwners(order, a, fills, parents);
    AttributionByOwners(order, b, fills, parents);
    assert forall g :: g in fills ==> g.orderId in OrderIds(fills);
    if AllOwned(order, a, parents, fills) {
      assert OwnersOf(order, a, parents, fills) == OwnersOf(order, b, parents, fills);
    }
  }

  lemma OwnersDecideSplit(order: seq<int>, a: Tables, b: Tables, f: Fee)
    requires a.Keys == b.Keys && !Contested(order, a, f) && !Contested(order, b, f) && SameOwners(order, a, b, f)
    ensures Split(order, a, f, ALL_OK) == Split(order, b, f, ALL_OK)
  {
    OwnersDecideAttribution(order, AllRecorded(a), AllRecorded(b), f.fills, f.parents);
    assert FeeOutcome(order, a, f, ALL_OK) == FeeOutcome(order, b, f, ALL_OK);
  }

  lemma ContestedIsRefused(order: seq<int>, tables: Tables, f: Fee, env: Env)
    requires Contested(order, tables, f)
    ensures Split(order, tables, f, env).None?
  {
  }

  lemma RecordedAppend(rows: seq<Row>, row: Row)
    ensures Recorded(rows + [row]) == Recorded(rows) + if row.orderId == "" then {} else {row.orderId}
  {
    var after := rows + [row];
    assert forall i :: 0 <= i < |rows| ==> after[i] == rows[i];
    assert after[|rows|] == row;
  }

  /** Every journal has at least the orders on record that it had. */
  ghost predicate Grown(a: Ids, b: Ids) {
    a.Keys == b.Keys && forall p :: p in a ==> a[p] <= b[p]
  }

  lemma TradeGrows(tables: Tables, pid: int, row: Row)
    requires pid in tables
    ensures Grown(AllRecorded(tables), AllRecorded(tables[pid := tables[pid] + [row]]))
  {
    RecordedAppend(tables[pid], row);
  }

  /** Whoever has a fill on its own record keeps it, unless the fill becomes contested. */
  lemma FirstStays(order: seq<int>, a: Ids, b: Ids, fills: seq<Fill>, g: Fill)
    requires Grown(a, b) && Uncontested(order, b, fills) && g in fills && First(order, a, g.orderId).Some?
    ensures First(order, b, g.orderId) == First(order, a, g.orderId)
  {
    FirstIsMember(order, a, g.orderId);
    var p := First(order, a, g.orderId).value;
    assert g.orderId in b[p];
  }

  /** A contested fill stays contested. */
  lemma ContestedStays(order: seq<int>, a: Ids, b: Ids, fills: seq<Fill>)
    requires Grown(a, b) && Uncontested(order, b, fills)
    ensures Uncontested(order, a, fills)
  {
    forall g, p | g in fills && p in order && p in a && g.orderId in a[p]
      ensures First(order, a, g.orderId) == Some(p)
    {
      FirstIsMember(order, a, g.orderId);
      FirstStays(order, a, b, fills, g);
      assert g.orderId in b[p];
    }
  }

  /** A harmless trade leaves the split of the day's fee as it is, or has every later pass refused. */
  lemma HarmlessKeepsSplit(order: seq<int>, tables: Tables, pid: int, row: Row, f: Fee)
    requires pid in tables && Harmless(order, tables, pid, row, f)
    ensures var after := tables[pid := tables[pid] + [row]];
            if Contested(order, after, f) then Split(order, after, f, ALL_OK).None?
            else !Contested(order, tables, f) && Split(order, after, f, ALL_OK) == Split(order, tables, f, ALL_OK)
  {
    var after := tables[pid := tables[pid] + [row]];
    assert after.Keys == tables.Keys;
    if Contested(order, after, f) {
      ContestedIsRefused(order, after, f, ALL_OK);
    } else {
      TradeGrows(tables, pid, row);
      ContestedStays(order, AllRecorded(tables), AllRecorded(after), f.fills);
      OwnersDecideSplit(order, tables, after, f);
    }
  }

  /** Of a day whose fills all have their own order on record no trade can take a fill from its owner. */
  lemma DirectIsHarmless(order: seq<int>, tables: Tables, pid: int, row: Row, f: Fee)
    requires pid in tables && Direct(order, AllRecorded(tables), f.fills)
    ensures Harmless(order, tables, pid, row, f)
  {
    var after := tables[pid := tables[pid] + [row]];
    if !Contested(order, after, f) {
      TradeGrows(tables, pid, row);
      forall oid | oid in OrderIds(f.fills)
        ensures Owner(order, AllRecorded(tables), f.parents, oid) == Owner(order, AllRecorded(after), f.parents, oid)
      {
        var g :| g in f.fills && g.orderId == oid;
        FirstStays(order, AllRecorded(tables), AllRecorded(after), f.fills, g);
      }
    }
  }

  /** A row tells the attribution of the fee's day nothing new. */
  ghost predicate Unheard(tables: Tables, pid: int, row: Row, f: Fee)
    requires pid in tables
  {
    row.orderId in DayIds(f) ==> row.orderId == "" || row.orderId in Recorded(tables[pid])
  }

  lemma {:induction false} FirstCongruent(order: seq<int>, a: Ids, b: Ids, oid: string)
    requires a.Keys == b.Keys
    requires forall p :: p in a ==> (oid in a[p] <==> oid in b[p])
    ensures First(order, a, oid) == First(order, b, oid)
  {
    if order != [] {
      FirstCongruent(order[..|order| - 1], a, b, oid);
    }
  }

  lemma UnheardFirst(order: seq<int>, tables: Tables, pid: int, row: Row, f: Fee, oid: string)
    requires pid in tables && Unheard(tables, pid, row, f) && oid in DayIds(f)
    ensures var after := tables[pid := tables[pid] + [row]];
            First(order, AllRecorded(after), oid) == First(order, AllRecorded(tables), oid)
            && forall p :: p in tables ==> (oid in Recorded(after[p]) <==> oid in Recorded(tables[p]))
  {
    RecordedAppend(tables[pid], row);
    FirstCongruent(order, AllRecorded(tables[pid := tables[pid] + [row]]), AllRecorded(tables), oid);
  }

  lemma UnheardSameOwners(order: seq<int>, tables: Tables, pid: int, row: Row, f: Fee)
    requires pid in tables && Unheard(tables, pid, row, f)
    ensures SameOwners(order, tables, tables[pid := tables[pid] + [row]], f)
  {
    var after := tables[pid := tables[pid] + [row]];
    forall oid | oid in OrderIds(f.fills)
      ensures Owner(order, AllRecorded(tables), f.parents, oid) == Owner(order, AllRecorded(after), f.parents, oid)
    {
      UnheardFirst(order, tables, pid, row, f, oid);
      if oid in f.parents {
        assert f.parents[oid] in DayIds(f);
        UnheardFirst(order, tables, pid, row, f, f.parents[oid]);
      }
    }
  }

  lemma UnheardContested(order: seq<int>, tables: Tables, pid: int, row: Row, f: Fee)
    requires pid in tables && Unheard(tables, pid, row, f)
    ensures Contested(order, tables[pid := tables[pid] + [row]], f) <==> Contested(order, tables, f)
  {
    var before, after := AllRecorded(tables), AllRecorded(tables[pid := tables[pid] + [row]]);
    forall g | g in f.fills
      ensures First(order, after, g.orderId) == First(order, before, g.orderId)
      ensures forall p :: p in before ==> (g.orderId in after[p] <==> g.orderId in before[p])
    {
      assert g.orderId in OrderIds(f.fills);
      UnheardFirst(order, tables, pid, row, f, g.orderId);
    }
  }

  /** A row that is not a new order of the day for its book does not change the split of the day's fee. */
  lemma SplitKept(order: seq<int>, tables: Tables, pid: int, row: Row, f: Fee)
    requires pid in tables && Unheard(tables, pid, row, f)
    ensures var after := tables[pid := tables[pid] + [row]];
            && Split(order, after, f, ALL_OK) == Split(order, tables, f, ALL_OK)
            && (Contested(order, after, f) <==> Contested(order, tables, f))
  {
    UnheardSameOwners(order, tables, pid, row, f);
    UnheardContested(order, tables, pid, row, f);
    HarmlessKeepsSplit(order, tables, pid, row, f);
    if Contested(order, tables, f) {
      ContestedIsRefused(order, tables, f, ALL_OK);
    }
  }

  /** A pass that is neither refused nor deferred computes the split that a pass without failures would. */
  lemma SplitIgnoresFailures(order: seq<int>, tables: Tables, f: Fee, env: Env)
    requires Split(order, tables, f, env).Some?
    ensures Split(order, tables, f, env) == Split(order, tables, f, ALL_OK)
  {
    var ids := AllRecorded(tables);
    if !Direct(order, ids, f.fills) {
      assert env.parents;
    }
    assert AllReadable(order, ALL_OK.unreadable);
    assert FeeOutcome(order, tables, f, env) == FeeOutcome(order, tables, f, ALL_OK);
  }

  // ----- runs that spare a fee -----

  /**
   The step does not disturb fee f: once f is accepted a trade takes no fill of its day from its owner, unless that
   makes a fill contested, and a pass on f that goes through is told f's day.
   */
  ghost predicate Spares(order: seq<int>, s: Account, step: Step, f: Fee)
    requires Enabled(s, step)
  {
    match step
    case Charge(_) => true
    case Trade(pid, row) => f.id in s.accepted ==> Harmless(order, s.tables, pid, row, f)
    case Pass(_, i, env, day) => s.fees[i].id == f.id && Computed(order, s, i, env, day).Some? ==> day == DayOf(f)
  }

  function DayOf(f: Fee): Day {
    Day(f.fills, f.parents)
  }

  ghost predicate Spared(order: seq<int>, s: Account, steps: seq<Step>, f: Fee)
    requires Runs(order, s, steps)
  {
    steps == []
    || (Spared(order, s, steps[..|steps| - 1], f)
        && Spares(order, After(order, s, steps[..|steps| - 1]), steps[|steps| - 1], f))
  }

  /** No other fee has f's id. */
  ghost predicate Lone(fees: seq<Fee>, f: Fee) {
    forall i :: 0 <= i < |fees| && fees[i].id == f.id ==> fees[i] == f
  }

  /** Activity ids are not order ids of f's day. */
  ghost predicate Apart(fees: seq<Fee>, f: Fee) {
    forall i :: 0 <= i < |fees| ==> fees[i].id !in DayIds(f)
  }

  /** The shares are a split of the fee's cents over the books. */
  ghost predicate HandsOut(f: Fee, shares: map<int, int>, keys: set<int>) {
    && f.shape.Some? && shares.Keys == keys && (forall p :: p in shares ==> shares[p] >= 0)
    && (Metric(f.shape.value.kind, f.fills) > 0.0 ==> Total(LR.AsReals(shares)) == CentsOf(f.net) as real)
    && (Clean(f.fills) ==>
          (Total(LR.AsReals(shares)) == CentsOf(f.net) as real
           <==> CentsOf(f.net) == 0 || Metric(f.shape.value.kind, f.fills) > 0.0))
  }

  /** Book p's side of fee f: at most one row, and exactly its share of the accepted split. */
  ghost predicate BookedRight(s: Account, p: int, f: Fee)
    requires p in s.tables
  {
    && SumRows(s.tables[p], Mentions(f.id)) <= 1.0
    && (HasActivity(s.tables[p], f.id) ==>
          && f.id in s.accepted && p in s.accepted[f.id] && s.accepted[f.id][p] > 0 && f.net != 0.0
          && SumRows(s.tables[p], CashFor(f.id)) == Signed(f.net, s.accepted[f.id][p]))
    && ((p, f.id) in s.passed ==>
          && f.id in s.accepted
          && (p in s.accepted[f.id] && s.accepted[f.id][p] > 0 && f.net != 0.0 ==> HasActivity(s.tables[p], f.id)))
  }

  /** The split of an accepted fee is the one on record, or no pass goes through any more. */
  ghost predicate Stable(order: seq<int>, s: Account, f: Fee) {
    f.id in s.accepted ==>
      && HandsOut(f, s.accepted[f.id], s.tables.Keys)
      && (Contested(order, s.tables, f) || Split(order, s.tables, f, ALL_OK) == Some(s.accepted[f.id]))
  }

  ghost predicate Inv(order: seq<int>, s: Account, f: Fee) {
    && LR.Distinct(order) && LR.Elements(order) == s.tables.Keys == s.initial.Keys
    && (forall id :: id in s.accepted ==> Charged(s.fees, id))
    && (forall x :: x in s.passed ==> Charged(s.fees, x.1))
    && Stable(order, s, f)
    && (Charged(s.fees, f.id) ==> forall p :: p in s.tables ==> BookedRight(s, p, f))
  }

  // ----- every step that spares the fee keeps the invariant -----

  lemma ChargedAppend(fees: seq<Fee>, fee: Fee, id: string)
    ensures Charged(fees + [fee], id) <==> Charged(fees, id) || fee.id == id
  {
    var after := fees + [fee];
    assert after[|fees|] == fee;
    if Charged(fees, id) {
      var i :| 0 <= i < |fees| && fees[i].id == id;
      assert after[i].id == id;
    }
  }

  lemma NewFeeIsUnbooked(s: Account, fee: Fee, p: int)
    requires FreshId(s, fee.id) && p in s.tables
    requires fee.id !in s.accepted && (p, fee.id) !in s.passed
    ensures BookedRight(s, p, fee)
  {
    MentionsCount(s.tables[p], fee.id);
  }

  lemma ChargeKeeps(order: seq<int>, s: Account, fee: Fee, f: Fee)
    requires Inv(order, s, f) && Enabled(s, Charge(fee)) && (fee.id == f.id ==> fee == f)
    ensures Inv(order, Next(order, s, Charge(fee)), f)
  {
    var t := Next(order, s, Charge(fee));
    forall id ensures Charged(t.fees, id) <==> Charged(s.fees, id) || fee.id == id {
      ChargedAppend(s.fees, fee, id);
    }
    if fee == f {
      assert !Charged(s.fees, f.id);
      forall p | p in t.tables ensures BookedRight(t, p, f) {
        NewFeeIsUnbooked(s, f, p);
      }
    } else if Charged(s.fees, f.id) {
      forall p | p in t.tables ensures BookedRight(t, p, f) {
        assert BookedRight(s, p, f);
      }
    }
  }

  lemma TradeKeepsStable(order: seq<int>, s: Account, pid: int, row: Row, f: Fee)
    requires Stable(order, s, f) && pid in s.tables
    requires f.id in s.accepted ==> Harmless(order, s.tables, pid, row, f)
    ensures Stable(order, Next(order, s.(fees := []), Trade(pid, row)), f)
  {
    assert s.tables[pid := s.tables[pid] + [row]].Keys == s.tables.Keys;
    if f.id in s.accepted {
      HarmlessKeepsSplit(order, s.tables, pid, row, f);
    }
  }

  lemma TradeKeeps(order: seq<int>, s: Account, pid: int, row: Row, f: Fee)
    requires Inv(order, s, f) && Enabled(s, Trade(pid, row)) && Spares(order, s, Trade(pid, row), f)
    ensures Inv(order, Next(order, s, Trade(pid, row)), f)
  {
    var t := Next(order, s, Trade(pid, row));
    assert t.tables.Keys == s.tables.Keys;
    TradeKeepsStable(order, s, pid, row, f);
    if Charged(s.fees, f.id) {
      forall p | p in t.tables ensures BookedRight(t, p, f) {
        assert BookedRight(s, p, f);
        if p == pid {
          OtherRow(s.tables[p], row, f.id);
        }
      }
    }
  }

  /** What a pass that computed `split` leaves behind, spelled out. */
  ghost predicate Passed(s: Account, pid: int, f: Fee, split: Option<map<int, int>>, t: Account) {
    && pid in s.tables && t.tables.Keys == s.tables.Keys
    && t.fees == s.fees && t.initial == s.initial && t.brokerCash == s.brokerCash
    && (forall p :: p in s.tables && p != pid ==> t.tables[p] == s.tables[p])
    && t.tables[pid] == RowsAfter(s.tables[pid], f, DueOf(split, pid))
    && (forall id :: id in t.accepted <==> id in s.accepted || (id == f.id && split.Some?))
    && (forall id :: id in s.accepted ==> t.accepted[id] == s.accepted[id])
    && (split.Some? && f.id !in s.accepted ==> t.accepted[f.id] == split.value)
    && (forall x :: x in t.passed <==>
                      x in s.passed || (x == (pid, f.id) && (split.Some? || HasActivity(s.tables[pid], f.id))))
  }

  lemma AfterPassIsPassed(s: Account, pid: int, f: Fee, split: Option<map<int, int>>, rows: seq<Row>)
    requires pid in s.tables && rows == RowsAfter(s.tables[pid], f, DueOf(split, pid))
    ensures Passed(s, pid, f, split, AfterPass(s, pid, f, split, rows))
  {
  }

  lemma PassIsPassed(order: seq<int>, s: Account, pid: int, i: nat, env: Env, day: Day)
    requires pid in s.tables && i < |s.fees| && s.fees[i].id != ""
    ensures Passed(s, pid, s.fees[i], Computed(order, s, i, env, day), Next(order, s, Pass(pid, i, env, day)))
  {
    var f, split := s.fees[i], Computed(order, s, i, env, day);
    var rows := Writers.Step(pid, s.tables[pid], FeeShare(f.id, f.net, DueOf(split, pid)));
    PassRows(s.tables[pid], pid, f, DueOf(split, pid));
    AfterPassIsPassed(s, pid, f, split, rows);
    assert AfterPass(s, pid, f, split, rows) == AfterPass(s, pid, Seen(f, day), split, rows);
  }

  /** The split of a pass hands out the fee, and it is the one on record, if there is one. */
  lemma RecordIsSplit(order: seq<int>, s: Account, f: Fee, env: Env)
    requires LR.Elements(order) == s.tables.Keys && Stable(order, s, f) && Split(order, s.tables, f, env).Some?
    ensures Split(order, s.tables, f, env) == Split(order, s.tables, f, ALL_OK)
    ensures HandsOut(f, Split(order, s.tables, f, env).value, s.tables.Keys)
    ensures f.id in s.accepted ==> Split(order, s.tables, f, env).value == s.accepted[f.id]
  {
    SplitIgnoresFailures(order, s.tables, f, env);
    SplitConserves(order, s.tables, f, ALL_OK);
    if Clean(f.fills) {
      SplitIsWholeIff(order, s.tables, f, ALL_OK);
    }
    if Contested(order, s.tables, f) {
      ContestedIsRefused(order, s.tables, f, ALL_OK);
    }
  }

  lemma PassKeepsOthers(s: Account, pid: int, f: Fee, split: Option<map<int, int>>, t: Account, g: Fee, p: int)
    requires Passed(s, pid, f, split, t) && p in s.tables && BookedRight(s, p, g)
    requires g.id != f.id || p != pid
    ensures BookedRight(t, p, g)
  {
    if p == pid && BooksOf(s.tables[p], f, DueOf(split, p)) {
      OtherRow(s.tables[p], FeeRow(f, DueOf(split, p)), g.id);
    }
  }

  lemma FeeRowCash(f: Fee, cents: int)
    ensures FeeRow(f, cents).orderId == f.id
    ensures CashFlow(FeeRow(f, cents)) == Signed(f.net, cents)
  {
    CashRowFlow(f.id, "FEE", Signed(f.net, cents), Signed(f.net, cents));
  }

  lemma PassKeepsOwn(s: Account, pid: int, f: Fee, split: Option<map<int, int>>, t: Account)
    requires Passed(s, pid, f, split, t) && BookedRight(s, pid, f)
    requires split.Some? && f.id in s.accepted ==> split.value == s.accepted[f.id]
    ensures BookedRight(t, pid, f)
  {
    var due := DueOf(split, pid);
    if BooksOf(s.tables[pid], f, due) {
      FirstRow(s.tables[pid], FeeRow(f, due));
      FeeRowCash(f, due);
    }
  }

  lemma BookingKeepsSplit(order: seq<int>, tables: Tables, pid: int, f: Fee, due: int, g: Fee)
    requires pid in tables && f.id !in DayIds(g)
    ensures var after := tables[pid := RowsAfter(tables[pid], f, due)];
            && Split(order, after, g, ALL_OK) == Split(order, tables, g, ALL_OK)
            && (Contested(order, after, g) <==> Contested(order, tables, g))
  {
    if BooksOf(tables[pid], f, due) {
      SplitKept(order, tables, pid, FeeRow(f, due), g);
    } else {
      assert tables[pid := tables[pid]] == tables;
    }
  }

  lemma PassKeepsStable(order: seq<int>, s: Account, pid: int, g: Fee, split: Option<map<int, int>>, t: Account, f: Fee)
    requires Passed(s, pid, g, split, t) && Stable(order, s, f) && g.id !in DayIds(f)
    requires g.id == f.id && split.Some? && f.id !in s.accepted ==>
               Split(order, s.tables, f, ALL_OK) == split && HandsOut(f, split.value, s.tables.Keys)
    ensures Stable(order, t, f)
  {
    TablesAre(s.tables, t.tables, pid, RowsAfter(s.tables[pid], g, DueOf(split, pid)));
    BookingKeepsSplit(order, s.tables, pid, g, DueOf(split, pid), f);
  }

  lemma PassKeepsBooks(order: seq<int>, s: Account, pid: int, g: Fee, split: Option<map<int, int>>, t: Account, f: Fee)
    requires Inv(order, s, f) && Charged(s.fees, f.id) && Passed(s, pid, g, split, t) && (g.id == f.id ==> g == f)
    requires g == f && split.Some? && f.id in s.accepted ==> split.value == s.accepted[f.id]
    ensures forall p :: p in t.tables ==> BookedRight(t, p, f)
  {
    forall p | p in t.tables ensures BookedRight(t, p, f) {
      if g == f && p == pid {
        PassKeepsOwn(s, pid, f, split, t);
      } else {
        PassKeepsOthers(s, pid, g, split, t, f, p);
      }
    }
  }

  lemma PassKeeps(order: seq<int>, s: Account, pid: int, i: nat, env: Env, day: Day, f: Fee)
    requires Inv(order, s, f) && Enabled(s, Pass(pid, i, env, day)) && s.fees[i].id != ""
    requires Lone(s.fees, f) && Apart(s.fees, f) && Spares(order, s, Pass(pid, i, env, day), f)
    ensures Inv(order, Next(order, s, Pass(pid, i, env, day)), f)
  {
    var t, g, split := Next(order, s, Pass(pid, i, env, day)), s.fees[i], Computed(order, s, i, env, day);
    PassIsPassed(order, s, pid, i, env, day);
    if g.id == f.id && split.Some? {
      assert Seen(g, day) == f;
      RecordIsSplit(order, s, f, env);
    }
    assert Charged(s.fees, g.id);
    PassKeepsStable(order, s, pid, g, split, t, f);
    if Charged(s.fees, f.id) {
      PassKeepsBooks(order, s, pid, g, split, t, f);
    }
  }

  lemma NextFees(order: seq<int>, s: Account, step: Step)
    requires Enabled(s, step)
    ensures s.fees <= Next(order, s, step).fees
    ensures step.Charge? ==> Next(order, s, step).fees[|s.fees|] == step.fee
  {
  }

  lemma NextKeeps(order: seq<int>, s: Account, step: Step, f: Fee)
    requires Basic(s) && Inv(order, s, f) && Enabled(s, step) && Spares(order, s, step, f)
    requires Lone(Next(order, s, step).fees, f) && Apart(Next(order, s, step).fees, f)
    ensures Inv(order, Next(order, s, step), f)
  {
    NextFees(order, s, step);
    match step
    case Charge(fee) => ChargeKeeps(order, s, fee, f);
    case Trade(pid, row) => TradeKeeps(order, s, pid, row, f);
    case Pass(pid, i, env, day) => PassKeeps(order, s, pid, i, env, day, f);
  }

  /** Every account reached by a run that spares the fee satisfies its invariant. */
  lemma {:induction false} RunKeeps(order: seq<int>, s: Account, steps: seq<Step>, f: Fee)
    requires Initial(order, s) && Runs(order, s, steps) && Spared(order, s, steps, f)
    requires Lone(After(order, s, steps).fees, f) && Apart(After(order, s, steps).fees, f)
    ensures Inv(order, After(order, s, steps), f)
  {
    if steps != [] {
      var init, last := steps[..|steps| - 1], steps[|steps| - 1];
      NextFees(order, After(order, s, init), last);
      RunKeeps(order, s, init, f);
      RunSettled(order, s, init);
      NextKeeps(order, After(order, s, init), last, f);
    }
  }

  // ----- once every sibling has passed -----

  /** Every book's pass on the fee went through. */
  ghost predicate AllPassed(s: Account, f: Fee) {
    forall p :: p in s.tables ==> (p, f.id) in s.passed
  }

  function CentFactor(net: real): real {
    if net < 0.0 then -0.01 else 0.01
  }

  lemma SignedIsScaled(net: real, cents: int)
    ensures Signed(net, cents) == Times(CentFactor(net), cents as real)
  {
  }

  lemma RoundedNet(net: real)
    ensures Signed(net, CentsOf(net)) == Round2(net)
    ensures net == 0.0 ==> Round2(net) == 0.0
  {
    if net < 0.0 {
      Round2IsOdd(-net);
    }
  }

  lemma BookShare(t: Account, p: int, f: Fee)
    requires p in t.tables && BookedRight(t, p, f) && (p, f.id) in t.passed && f.net != 0.0
    requires f.id in t.accepted && p in t.accepted[f.id] && t.accepted[f.id][p] >= 0
    ensures SumRows(t.tables[p], CashFor(f.id)) == Times(CentFactor(f.net), LR.ToReal(t.accepted[f.id][p]))
  {
    SignedIsScaled(f.net, t.accepted[f.id][p]);
    if !HasActivity(t.tables[p], f.id) {
      NoActivityNoCash(t.tables[p], f.id);
    }
  }

  lemma NothingToBook(t: Account, f: Fee)
    requires f.net == 0.0 && forall p :: p in t.tables ==> BookedRight(t, p, f)
    ensures BookedCash(t.tables, f.id) == 0.0
  {
    forall p | p in t.tables ensures CashesFor(t.tables, f.id)[p] == 0.0 {
      assert BookedRight(t, p, f);
      NoActivityNoCash(t.tables[p], f.id);
    }
    SumOfZeros(t.tables.Keys, CashesFor(t.tables, f.id));
  }

  /** What the books hold of a fee is its accepted split, signed. */
  lemma BookedIsAccepted(t: Account, f: Fee)
    requires f.id in t.accepted && t.accepted[f.id].Keys == t.tables.Keys && f.net != 0.0
    requires forall p :: p in t.tables ==> BookedRight(t, p, f) && (p, f.id) in t.passed && t.accepted[f.id][p] >= 0
    ensures BookedCash(t.tables, f.id) == Times(CentFactor(f.net), Total(LR.AsReals(t.accepted[f.id])))
  {
    var shares := t.accepted[f.id];
    forall p | p in t.tables
      ensures CashesFor(t.tables, f.id)[p] == Times(CentFactor(f.net), LR.AsReals(shares)[p])
    {
      BookShare(t, p, f);
    }
    SumScaled(t.tables.Keys, CashesFor(t.tables, f.id), CentFactor(f.net), LR.AsReals(shares));
  }

  /** The books hold the fee to the cent if its fills carry base; on clean fills, just if they do or nothing is due. */
  ghost predicate HoldsAll(t: Account, f: Fee) {
    && f.shape.Some?
    && (Metric(f.shape.value.kind, f.fills) > 0.0 ==> BookedCash(t.tables, f.id) == Round2(f.net))
    && (Clean(f.fills) ==>
          (BookedCash(t.tables, f.id) == Round2(f.net)
           <==> Round2(f.net) == 0.0 || Metric(f.shape.value.kind, f.fills) > 0.0))
  }

  lemma PassedHoldsAll(order: seq<int>, t: Account, f: Fee)
    requires Inv(order, t, f) && Charged(t.fees, f.id) && t.tables != map[] && AllPassed(t, f)
    ensures HoldsAll(t, f)
  {
    RoundedNet(f.net);
    assert BookedRight(t, Pick(t.tables.Keys), f);
    if f.net == 0.0 {
      NothingToBook(t, f);
    } else {
      BookedIsAccepted(t, f);
      WholeIsRounded(f.net, Total(LR.AsReals(t.accepted[f.id])));
    }
  }

  lemma DistinctIsLone(fees: seq<Fee>, i: nat)
    requires DistinctFees(fees) && i < |fees|
    ensures Lone(fees, fees[i]) && Charged(fees, fees[i].id)
  {
  }

  /** Once every sibling's pass on a fee went through, in a run that spared it, the books hold the whole fee. */
  lemma AllPassedBooksAll(order: seq<int>, s: Account, steps: seq<Step>, i: nat)
    requires Initial(order, s) && Runs(order, s, steps) && s.tables != map[] && i < |After(order, s, steps).fees|
    ensures var t := After(order, s, steps);
            Spared(order, s, steps, t.fees[i]) && Apart(t.fees, t.fees[i]) && AllPassed(t, t.fees[i]) ==>
              HoldsAll(t, t.fees[i])
  {
    var t := After(order, s, steps);
    if Spared(order, s, steps, t.fees[i]) && Apart(t.fees, t.fees[i]) && AllPassed(t, t.fees[i]) {
      RunSettled(order, s, steps);
      DistinctIsLone(t.fees, i);
      RunKeeps(order, s, steps, t.fees[i]);
      AfterKeepsBooks(order, s, steps);
      PassedHoldsAll(order, t, t.fees[i]);
    }
  }

  /** The signed cents are the rounded net exactly when they are all of its cents. */
  lemma WholeIsRounded(net: real, cents: real)
    ensures Times(CentFactor(net), cents) == Round2(net) <==> cents == CentsOf(net) as real
    ensures Round2(net) == 0.0 <==> CentsOf(net) == 0
  {
    RoundedNet(net);
    SignedIsScaled(net, CentsOf(net));
  }

  lemma {:induction false} AfterKeepsBooks(order: seq<int>, s: Account, steps: seq<Step>)
    ensures Runs(order, s, steps) ==> After(order, s, steps).tables.Keys == s.tables.Keys
  {
    if steps != [] && Runs(order, s, steps) {
      AfterKeepsBooks(order, s, steps[..|steps| - 1]);
    }
  }

  /** Nobody has started booking the fee, or everybody is done with it and it is a whole number of cents. */
  ghost predicate AtRest(t: Account, f: Fee) {
    !Journaled(t.tables, f.id)
    || (AllPassed(t, f) && Round2(f.net) == f.net
        && f.shape.Some? && Metric(f.shape.value.kind, f.fills) > 0.0)
  }

  lemma {:induction false} NothingUnbooked(fees: seq<Fee>, tables: Tables)
    requires forall i :: 0 <= i < |fees| ==> Unbooked(tables, fees[i]) == 0.0
    ensures AllUnbooked(fees, tables) == 0.0
  {
    if fees != [] {
      NothingUnbooked(fees[..|fees| - 1], tables);
    }
  }

  /**
   When every fee is untouched or fully passed, the parity is exactly what it was before the first fee. Only the fees
   that somebody booked need to be spared.
   */
  lemma ParityRestored(order: seq<int>, s: Account, steps: seq<Step>)
    requires Initial(order, s) && Runs(order, s, steps) && s.tables != map[]
    requires var t := After(order, s, steps);
             forall i :: 0 <= i < |t.fees| ==>
                           AtRest(t, t.fees[i])
                           && (Journaled(t.tables, t.fees[i].id) ==>
                                 Spared(order, s, steps, t.fees[i]) && Apart(t.fees, t.fees[i]))
    ensures var t := After(order, s, steps); t.initial.Keys == t.tables.Keys && Parity(t) == Parity(s)
  {
    var t := After(order, s, steps);
    ParityIsUnbookedShares(order, s, steps);
    forall i | 0 <= i < |t.fees| ensures Unbooked(t.tables, t.fees[i]) == 0.0 {
      if Journaled(t.tables, t.fees[i].id) {
        AllPassedBooksAll(order, s, steps, i);
      }
    }
    NothingUnbooked(t.fees, t.tables);
  }

  // ----- a day without late parents -----

  /** A pass that accepts f is told f's day and finds the order of every fill on record. */
  ghost predicate TakesDirectly(order: seq<int>, s: Account, step: Step, f: Fee)
    requires Enabled(s, step)
  {
    match step
    case Pass(_, i, env, day) =>
      s.fees[i].id == f.id && Computed(order, s, i, env, day).Some? ==>
        day == DayOf(f) && (f.id !in s.accepted ==> Direct(order, AllRecorded(s.tables), f.fills))
    case _ => true
  }

  ghost predicate TakenDirectly(order: seq<int>, s: Account, steps: seq<Step>, f: Fee)
    requires Runs(order, s, steps)
  {
    steps == []
    || (TakenDirectly(order, s, steps[..|steps| - 1], f)
        && TakesDirectly(order, After(order, s, steps[..|steps| - 1]), steps[|steps| - 1], f))
  }

  lemma DirectGrows(order: seq<int>, a: Ids, b: Ids, fills: seq<Fill>)
    requires Grown(a, b) && Direct(order, a, fills)
    ensures Direct(order, b, fills)
  {
    forall g | g in fills ensures First(order, b, g.orderId).Some? {
      FirstIsMember(order, a, g.orderId);
      FirstIsMember(order, b, g.orderId);
      var p := First(order, a, g.orderId).value;
      assert g.orderId in b[p];
    }
  }

  lemma NextGrows(order: seq<int>, s: Account, step: Step)
    requires Basic(s) && Enabled(s, step)
    ensures Grown(AllRecorded(s.tables), AllRecorded(Next(order, s, step).tables))
  {
    match step
    case Charge(_) =>
    case Trade(pid, row) => TradeGrows(s.tables, pid, row);
    case Pass(pid, i, env, day) =>
      var due := DueOf(Computed(order, s, i, env, day), pid);
      PassIsOwn(order, s, pid, i, env, day);
      if BooksOf(s.tables[pid], s.fees[i], due) {
        TradeGrows(s.tables, pid, FeeRow(s.fees[i], due));
      }
  }

  lemma AcceptedBefore(order: seq<int>, s: Account, step: Step, id: string)
    requires Enabled(s, step)
    ensures id in Next(order, s, step).accepted && id !in s.accepted ==>
              && step.Pass? && s.fees[step.index].id == id
              && Computed(order, s, step.index, step.env, step.day).Some?
  {
  }

  lemma DirectStep(order: seq<int>, s: Account, step: Step, f: Fee)
    requires Basic(s) && Enabled(s, step) && TakesDirectly(order, s, step, f)
    requires f.id in s.accepted ==> Direct(order, AllRecorded(s.tables), f.fills)
    ensures Spares(order, s, step, f)
    ensures var t := Next(order, s, step); f.id in t.accepted ==> Direct(order, AllRecorded(t.tables), f.fills)
  {
    if f.id in s.accepted && step.Trade? {
      DirectIsHarmless(order, s.tables, step.pid, step.row, f);
    }
    var t := Next(order, s, step);
    if f.id in t.accepted {
      if f.id !in s.accepted {
        AcceptedBefore(order, s, step, f.id);
      }
      NextGrows(order, s, step);
      DirectGrows(order, AllRecorded(s.tables), AllRecorded(t.tables), f.fills);
    }
  }

  /** A fee whose fills were all owned by their own orders when it was accepted is spared by every trade. */
  lemma {:induction false} DirectIsSpared(order: seq<int>, s: Account, steps: seq<Step>, f: Fee)
    requires Initial(order, s) && Runs(order, s, steps) && TakenDirectly(order, s, steps, f)
    ensures Spared(order, s, steps, f)
    ensures var t := After(order, s, steps);
            f.id in t.accepted ==> Direct(order, AllRecorded(t.tables), f.fills)
  {
    if steps != [] {
      var init, last := steps[..|steps| - 1], steps[|steps| - 1];
      var mid := After(order, s, init);
      DirectIsSpared(order, s, init, f);
      RunSettled(order, s, init);
      DirectStep(order, mid, last, f);
    }
  }

  /** So the books end up with it whole, whatever is traded before, between and after the passes. */
  lemma DirectBooksAll(order: seq<int>, s: Account, steps: seq<Step>, i: nat)
    requires Initial(order, s) && Runs(order, s, steps) && s.tables != map[] && i < |After(order, s, steps).fees|
    requires TakenDirectly(order, s, steps, After(order, s, steps).fees[i])
    requires Apart(After(order, s, steps).fees, After(order, s, steps).fees[i])
    requires AllPassed(After(order, s, steps), After(order, s, steps).fees[i])
    ensures var t := After(order, s, steps); HoldsAll(t, t.fees[i])
  {
    DirectIsSpared(order, s, steps, After(order, s, steps).fees[i]);
    AllPassedBooksAll(order, s, steps, i);
  }

  ghost predicate NoLegs(f: Fee) {
    forall g :: g in f.fills ==> g.orderId !in f.parents
  }

  lemma NoLegsOwnedIsDirect(order: seq<int>, ids: Ids, f: Fee)
    requires NoLegs(f)
    ensures AllOwned(order, ids, f.parents, f.fills) <==> Direct(order, ids, f.fills)
  {
  }

  /** Without leg orders among the fills a fee is only ever accepted with every fill on its owner's own record. */
  lemma NoLegsIsDirect(order: seq<int>, tables: Tables, f: Fee, env: Env)
    requires NoLegs(f) && Split(order, tables, f, env).Some?
    ensures Direct(order, AllRecorded(tables), f.fills)
  {
    NoLegsOwnedIsDirect(order, AllRecorded(tables), f);
  }

  // ----- why a trade must not take a fill -----

  lemma {:induction false} FirstOnly(order: seq<int>, ids: Ids, oid: string, p: int)
    requires forall r :: r in order && r in ids && oid in ids[r] ==> r == p
    ensures First(order, ids, oid) == if p in order && p in ids && oid in ids[p] then Some(p) else None
  {
    if order != [] {
      var init, last := order[..|order| - 1], order[|order| - 1];
      assert order == init + [last];
      FirstOnly(init, ids, oid, p);
    }
  }

  /** A fee of one fill goes to the owner of that fill alone. */
  lemma OneFillOneShare(order: seq<int>, tables: Tables, f: Fee, p: int)
    requires LR.Elements(order) == tables.Keys && p in tables
    requires |f.fills| == 1 && f.shape.Some? && f.shape.value.base.None? && Base(f.shape.value.kind, f.fills[0]) > 0.0
    requires FeeOutcome(order, tables, f, ALL_OK) == Owned(map[f.fills[0].orderId := p])
    ensures var split := Split(order, tables, f, ALL_OK);
            split.Some? && split.value.Keys == tables.Keys && split.value[p] == CentsOf(f.net)
            && forall r :: r in tables && r != p ==> split.value[r] == 0
  {
    var kind, owners := f.shape.value.kind, map[f.fills[0].orderId := p];
    var bases := Metrics(kind, f.fills, owners, tables.Keys);
    assert f.fills[..0] == [];
    forall r | r in tables
      ensures bases[r] == if r == p then Base(kind, f.fills[0]) else 0.0
    {
      OneBookFill(f.fills, owners, r, kind);
    }
    SumSupport(tables.Keys, {p}, bases);
    SumPick({p}, bases, p);
    assert {p} - {p} == {};
    var split := Split(order, tables, f, ALL_OK).value;
    SplitConserves(order, tables, f, ALL_OK);
    forall r | r in tables && r != p ensures split[r] == 0 {
      SC.NoWeightNoShare(CentsOf(f.net), bases, r);
    }
    var shares := LR.AsReals(split);
    SumSupport(shares.Keys, {p}, shares);
    SumPick({p}, shares, p);
    assert bases[p] > 0.0;
  }

  lemma OneBookFill(fills: seq<Fill>, owners: Owners, r: int, kind: Kind)
    requires |fills| == 1 && fills[0].orderId in owners
    ensures Metric(kind, BookFills(fills, owners, r))
         == if owners[fills[0].orderId] == r then Base(kind, fills[0]) else 0.0
  {
    assert BookFills(fills[..0], owners, r) == [];
    MetricAppend(kind, [], fills[0]);
    assert [] + [fills[0]] == [fills[0]];
  }

  /** Book p, and no other, owns the fee's one fill, through the parent order; the row is the fill's own leg order. */
  ghost predicate OwnedAsLeg(tables: Tables, f: Fee, p: int, row: Row) {
    && |f.fills| == 1 && f.shape.Some? && f.shape.value.base.None? && Base(f.shape.value.kind, f.fills[0]) > 0.0
    && var leg := f.fills[0].orderId;
       && leg in f.parents && row.orderId == leg && leg != "" && leg != f.parents[leg]
       && (forall r :: r in tables ==> leg !in Recorded(tables[r]))
       && (forall r :: r in tables ==> (f.parents[leg] in Recorded(tables[r]) <==> r == p))
  }

  /**
   A late order does move the split: a spread's fill that one book owns through the parent order goes, with the whole
   fee, to another book as soon as that one journals the leg order itself.
   */
  lemma LateOrderMovesSplit(order: seq<int>, tables: Tables, f: Fee, p: int, q: int, row: Row)
    requires LR.Elements(order) == tables.Keys && p in tables && q in tables && p != q
    requires OwnedAsLeg(tables, f, p, row)
    ensures var late := tables[q := tables[q] + [row]];
            var before, after := Split(order, tables, f, ALL_OK), Split(order, late, f, ALL_OK);
            && before.Some? && before.value.Keys == tables.Keys && before.value[p] == CentsOf(f.net)
            && after.Some? && after.value.Keys == tables.Keys && after.value[q] == CentsOf(f.net)
  {
    var next := tables[q := tables[q] + [row]];
    assert next.Keys == tables.Keys;
    OwnedByParent(order, tables, f, p);
    OneFillOneShare(order, tables, f, p);
    RecordedAppend(tables[q], row);
    OwnedDirectly(order, next, f, q);
    OneFillOneShare(order, next, f, q);
  }

  lemma LateOrderIsNotHarmless(order: seq<int>, tables: Tables, f: Fee, p: int, q: int, row: Row)
    requires LR.Elements(order) == tables.Keys && p in tables && q in tables && p != q
    requires OwnedAsLeg(tables, f, p, row)
    ensures !Harmless(order, tables, q, row, f)
  {
    var next, leg := tables[q := tables[q] + [row]], f.fills[0].orderId;
    OwnedByParent(order, tables, f, p);
    RecordedAppend(tables[q], row);
    OwnedDirectly(order, next, f, q);
    assert f.fills[0] in f.fills && leg in OrderIds(f.fills);
    AttributionByOwners(order, AllRecorded(tables), f.fills, f.parents);
    AttributionByOwners(order, AllRecorded(next), f.fills, f.parents);
    assert OwnersOf(order, AllRecorded(tables), f.parents, f.fills)[leg] == p;
    assert OwnersOf(order, AllRecorded(next), f.parents, f.fills)[leg] == q;
  }

  lemma RunStep(order: seq<int>, s: Account, steps: seq<Step>, step: Step, f: Fee)
    requires Runs(order, s, steps) && Enabled(After(order, s, steps), step)
    ensures Runs(order, s, steps + [step])
    ensures After(order, s, steps + [step]) == Next(order, After(order, s, steps), step)
    ensures Spared(order, s, steps + [step], f) <==>
              Spared(order, s, steps, f) && Spares(order, After(order, s, steps), step, f)
  {
    assert (steps + [step])[..|steps|] == steps;
  }

  /** A book that was due all cents of a fee has booked them. */
  ghost predicate FullPass(s: Account, p: int, f: Fee, t: Account) {
    && p in s.tables && t.tables == s.tables[p := s.tables[p] + [FeeRow(f, CentsOf(f.net))]]
    && t.fees == s.fees && f.id in t.accepted && (p, f.id) in t.passed && s.passed <= t.passed
  }

  lemma PassedInFull(s: Account, p: int, f: Fee, split: Option<map<int, int>>, t: Account)
    requires Passed(s, p, f, split, t) && DueOf(split, p) == CentsOf(f.net) > 0 && !HasActivity(s.tables[p], f.id)
    ensures FullPass(s, p, f, t)
  {
    TablesAre(s.tables, t.tables, p, s.tables[p] + [FeeRow(f, CentsOf(f.net))]);
  }

  lemma BooksInFull(order: seq<int>, s: Account, i: nat, p: int)
    requires i < |s.fees| && s.fees[i].id != "" && p in s.tables && !HasActivity(s.tables[p], s.fees[i].id)
    requires DueOf(Split(order, s.tables, s.fees[i], ALL_OK), p) == CentsOf(s.fees[i].net) > 0
    ensures FullPass(s, p, s.fees[i], Next(order, s, Pass(p, i, ALL_OK, DayOf(s.fees[i]))))
  {
    var f := s.fees[i];
    assert Seen(f, DayOf(f)) == f;
    PassIsPassed(order, s, p, i, ALL_OK, DayOf(f));
    PassedInFull(s, p, f, Split(order, s.tables, f, ALL_OK), Next(order, s, Pass(p, i, ALL_OK, DayOf(f))));
  }

  lemma FullPassCash(s: Account, p: int, f: Fee, t: Account)
    requires FullPass(s, p, f, t)
    ensures BookedCash(t.tables, f.id) == BookedCash(s.tables, f.id) + Round2(f.net)
  {
    RoundedNet(f.net);
    FeeRowCash(f, CentsOf(f.net));
    AppendCash(s.tables, p, FeeRow(f, CentsOf(f.net)), f.id);
  }

  /** Where book p may pass on fee i of the account, and the late order of book q comes after. */
  ghost predicate Late(order: seq<int>, s: Account, i: nat, p: int, q: int, row: Row) {
    && LR.Elements(order) == s.tables.Keys && p in s.tables && q in s.tables && p != q && i < |s.fees|
    && OwnedAsLeg(s.tables, s.fees[i], p, row) && Enabled(s, Trade(q, row)) && CentsOf(s.fees[i].net) > 0
    && s.fees[i].id != "" && s.fees[i].id !in DayIds(s.fees[i]) && !HasActivity(s.tables[q], s.fees[i].id)
  }

  lemma LegIsOfDay(f: Fee)
    requires |f.fills| == 1 && f.fills[0].orderId in f.parents
    ensures f.fills[0].orderId in DayIds(f) && f.parents[f.fills[0].orderId] in DayIds(f)
  {
    assert f.fills[0] in f.fills;
  }

  /** The first book's pass books the fee in full and leaves the late order late. */
  lemma FirstPassIsFull(order: seq<int>, s: Account, i: nat, p: int, q: int, row: Row)
    requires Late(order, s, i, p, q, row) && !HasActivity(s.tables[p], s.fees[i].id)
    ensures var a := Next(order, s, Pass(p, i, ALL_OK, DayOf(s.fees[i])));
            FullPass(s, p, s.fees[i], a) && Late(order, a, i, p, q, row)
  {
    var f := s.fees[i];
    var a := Next(order, s, Pass(p, i, ALL_OK, DayOf(f)));
    LateOrderMovesSplit(order, s.tables, f, p, q, row);
    BooksInFull(order, s, i, p);
    StaysLate(order, s, i, p, q, row, a);
  }

  lemma StaysLate(order: seq<int>, s: Account, i: nat, p: int, q: int, row: Row, a: Account)
    requires Late(order, s, i, p, q, row) && FullPass(s, p, s.fees[i], a)
    ensures Late(order, a, i, p, q, row)
  {
    var f := s.fees[i];
    RecordedAppend(s.tables[p], FeeRow(f, CentsOf(f.net)));
    LegIsOfDay(f);
  }

  /** The late order is not harmless, and the second book's pass books the fee in full again. */
  lemma SecondPassIsFull(order: seq<int>, a: Account, i: nat, p: int, q: int, row: Row)
    requires Late(order, a, i, p, q, row)
    ensures var f, b := a.fees[i], Next(order, a, Trade(q, row));
            FullPass(b, q, f, Next(order, b, Pass(q, i, ALL_OK, DayOf(f))))
            && BookedCash(b.tables, f.id) == BookedCash(a.tables, f.id)
            && (f.id in a.accepted ==> !Spares(order, a, Trade(q, row), f))
  {
    var f, b := a.fees[i], Next(order, a, Trade(q, row));
    LateOrderIsNotHarmless(order, a.tables, f, p, q, row);
    LateOrderMovesSplit(order, a.tables, f, p, q, row);
    OtherRow(a.tables[q], row, f.id);
    AppendCash(a.tables, q, row, f.id);
    BooksInFull(order, b, i, q);
  }

  function LateSteps(i: nat, f: Fee, p: int, q: int, row: Row): seq<Step> {
    [Pass(p, i, ALL_OK, DayOf(f))] + [Trade(q, row)] + [Pass(q, i, ALL_OK, DayOf(f))]
  }

  lemma LateRun(order: seq<int>, s: Account, i: nat, p: int, q: int, row: Row, a: Account, b: Account)
    requires Late(order, s, i, p, q, row) && Late(order, a, i, p, q, row) && a.fees == s.fees
    requires s.fees[i].id in a.accepted && !Spares(order, a, Trade(q, row), s.fees[i])
    requires a == Next(order, s, Pass(p, i, ALL_OK, DayOf(s.fees[i]))) && b == Next(order, a, Trade(q, row))
    ensures var f, steps := s.fees[i], LateSteps(i, s.fees[i], p, q, row);
            && Runs(order, s, steps) && !Spared(order, s, steps, f)
            && Enabled(b, Pass(q, i, ALL_OK, DayOf(f)))
            && After(order, s, steps) == Next(order, b, Pass(q, i, ALL_OK, DayOf(f)))
  {
    var f := s.fees[i];
    var first, last := Pass(p, i, ALL_OK, DayOf(f)), Pass(q, i, ALL_OK, DayOf(f));
    assert [] + [first] == [first];
    RunStep(order, s, [], first, f);
    RunStep(order, s, [first], Trade(q, row), f);
    RunStep(order, s, [first] + [Trade(q, row)], last, f);
  }

  lemma TradeRecords(order: seq<int>, a: Account, q: int, row: Row)
    requires Enabled(a, Trade(q, row))
    ensures var b := Next(order, a, Trade(q, row)); b.passed == a.passed && b.tables.Keys == a.tables.Keys
  {
  }

  lemma BookedTwice(s: Account, p: int, a: Account, b: Account, q: int, t: Account, f: Fee)
    requires FullPass(s, p, f, a) && FullPass(b, q, f, t) && !Journaled(s.tables, f.id) && CentsOf(f.net) > 0
    requires BookedCash(b.tables, f.id) == BookedCash(a.tables, f.id)
    requires b.passed == a.passed && b.tables.Keys == a.tables.Keys
    ensures BookedCash(t.tables, f.id) == 2.0 * Round2(f.net) && Round2(f.net) != 0.0
    ensures s.tables.Keys == {p, q} ==> AllPassed(t, f)
  {
    NotJournaledNoCash(s.tables, f.id);
    FullPassCash(s, p, f, a);
    FullPassCash(b, q, f, t);
    WholeIsRounded(f.net, 0.0);
  }

  /**
   Without the guard the total is wrong: one book passes on the fee, another journals the leg order and passes, and the
   books hold the fee twice. On an account of these two books every sibling has passed.
   */
  lemma LateOrderBooksTwice(order: seq<int>, s: Account, i: nat, p: int, q: int, row: Row)
    requires Late(order, s, i, p, q, row) && !Journaled(s.tables, s.fees[i].id)
    ensures var f, steps := s.fees[i], LateSteps(i, s.fees[i], p, q, row);
            && Runs(order, s, steps) && !Spared(order, s, steps, f)
            && var t := After(order, s, steps);
               && BookedCash(t.tables, f.id) == 2.0 * Round2(f.net) && Round2(f.net) != 0.0
               && (s.tables.Keys == {p, q} ==> AllPassed(t, f))
  {
    var f := s.fees[i];
    var a := Next(order, s, Pass(p, i, ALL_OK, DayOf(f)));
    var b := Next(order, a, Trade(q, row));
    FirstPassIsFull(order, s, i, p, q, row);
    SecondPassIsFull(order, a, i, p, q, row);
    TradeRecords(order, a, q, row);
    LateRun(order, s, i, p, q, row, a, b);
    BookedTwice(s, p, a, b, q, Next(order, b, Pass(q, i, ALL_OK, DayOf(f))), f);
  }

  lemma OwnedByParent(order: seq<int>, tables: Tables, f: Fee, p: int)
    requires LR.Elements(order) == tables.Keys && p in tables && |f.fills| == 1 && f.shape.Some?
    requires var leg := f.fills[0].orderId;
             && leg in f.parents
             && (forall r :: r in tables ==> leg !in Recorded(tables[r]))
             && (forall r :: r in tables ==> (f.parents[leg] in Recorded(tables[r]) <==> r == p))
    ensures FeeOutcome(order, tables, f, ALL_OK) == Owned(map[f.fills[0].orderId := p])
  {
    var leg, ids := f.fills[0].orderId, AllRecorded(tables);
    assert p in LR.Elements(order);
    assert forall r :: r in order ==> r in LR.Elements(order);
    FirstOnly(order, ids, leg, p);
    FirstOnly(order, ids, f.parents[leg], p);
    assert f.fills[0] in f.fills && OrderIds(f.fills) == {leg};
    assert Uncontested(order, ids, f.fills) && !Direct(order, ids, f.fills);
    assert OwnersOf(order, ids, f.parents, f.fills) == map[leg := p];
  }

  lemma OwnedDirectly(order: seq<int>, tables: Tables, f: Fee, q: int)
    requires LR.Elements(order) == tables.Keys && q in tables && |f.fills| == 1 && f.shape.Some?
    requires forall r :: r in tables ==> (f.fills[0].orderId in Recorded(tables[r]) <==> r == q)
    ensures FeeOutcome(order, tables, f, ALL_OK) == Owned(map[f.fills[0].orderId := q])
  {
    var leg, ids := f.fills[0].orderId, AllRecorded(tables);
    assert q in LR.Elements(order);
    assert forall r :: r in order ==> r in LR.Elements(order);
    FirstOnly(order, ids, leg, q);
    assert f.fills[0] in f.fills && OrderIds(f.fills) == {leg};
    assert Uncontested(order, ids, f.fills) && Direct(order, ids, f.fills);
    assert DirectOwners(order, ids, f.fills) == map[leg := q];
  }
}

/**
 activities_capture.py: an account-level broker fee, attributed to the sibling books by the broker's own fills and
 split pro-rata on the base the broker names.
 */
module FeeCapture {
  import opened Money
  import opened Sums
  import opened Accounts
  import opened Journal
  import opened Writers
  import SC = SplitCents
  import LR = LargestRemainder
  import CP = CapturePass

  datatype Kind = REG | OPT_REG | CAT | TAF | OPT_TAF | ORF | OCC

  /** One FILL activity of the account; `sells` is `side.startswith("sell")`. */
  datatype Fill = Fill(orderId: string, isOption: bool, sells: bool, qty: real, price: real)

  /** The base a fill adds to a fee kind. */
  function Base(kind: Kind, f: Fill): real {
    match kind
    case REG => if !f.isOption && f.sells then f.qty * f.price else 0.0
    case OPT_REG => if f.isOption && f.sells then f.qty * f.price * 100.0 else 0.0
    case CAT => 1.0
    case TAF => if !f.isOption && f.sells then f.qty else 0.0
    case OPT_TAF => if f.isOption && f.sells then f.qty else 0.0
    case ORF | OCC => if f.isOption then f.qty else 0.0
  }

  function Metric(kind: Kind, fills: seq<Fill>): real {
    if fills == [] then 0.0 else Metric(kind, fills[..|fills| - 1]) + Base(kind, fills[|fills| - 1])
  }

  /** `_fee_metric` */
  method FeeMetric(kind: Kind, fills: seq<Fill>) returns (m: real)
    ensures m == Metric(kind, fills)
  {
    m := 0.0;
    for i := 0 to |fills|
      invariant m == Metric(kind, fills[..i])
    {
      assert fills[..i + 1][..i] == fills[..i];
      m := m + Base(kind, fills[i]);
    }
    assert fills[..|fills|] == fills;
  }

  // ----- who owns a fill -----

  type Ids = map<int, set<string>>

  /** The first book, in listing order, whose journal recorded the order. */
  function First(order: seq<int>, ids: Ids, oid: string): Option<int> {
    if order == [] then None
    else
      var p, before := order[|order| - 1], First(order[..|order| - 1], ids, oid);
      if before.Some? then before else if p in ids && oid in ids[p] then Some(p) else None
  }

  /** A fill belongs to the book that recorded its order, or else to the first that recorded its parent order. */
  function Owner(order: seq<int>, ids: Ids, parents: map<string, string>, oid: string): Option<int> {
    var direct := First(order, ids, oid);
    if direct.Some? then direct
    else if oid in parents then First(order, ids, parents[oid]) else None
  }

  /** No fill's order is recorded by two books. */
  ghost predicate Uncontested(order: seq<int>, ids: Ids, fills: seq<Fill>) {
    forall f, p :: f in fills && p in order && p in ids && f.orderId in ids[p] ==>
                     First(order, ids, f.orderId) == Some(p)
  }

  ghost predicate Direct(order: seq<int>, ids: Ids, fills: seq<Fill>) {
    forall f :: f in fills ==> First(order, ids, f.orderId).Some?
  }

  ghost predicate AllOwned(order: seq<int>, ids: Ids, parents: map<string, string>, fills: seq<Fill>) {
    forall f :: f in fills ==> Owner(order, ids, parents, f.orderId).Some?
  }

  type Owners = map<string, int>

  /** The owners table of an attribution that was not refused. */
  ghost function OwnersOf(order: seq<int>, ids: Ids, parents: map<string, string>, fills: seq<Fill>): Owners
    requires AllOwned(order, ids, parents, fills)
  {
    map oid | oid in OrderIds(fills) :: OwnerOrZero(order, ids, parents, oid)
  }

  ghost function OwnerOrZero(order: seq<int>, ids: Ids, parents: map<string, string>, oid: string): int {
    var o := Owner(order, ids, parents, oid);
    if o.Some? then o.value else 0
  }

  function OrderIds(fills: seq<Fill>): set<string> {
    set f | f in fills :: f.orderId
  }

  /** One book's turn in the ownership loop. */
  method Claim(p: int, recorded: set<string>, fills: seq<Fill>, before: Owners) returns (ok: bool, owners: Owners)
    ensures ok <==> forall f :: f in fills && f.orderId in recorded && f.orderId in before ==> before[f.orderId] == p
    ensures ok ==> owners.Keys == before.Keys + OrderIds(fills) * recorded
    ensures ok ==> forall oid :: oid in owners ==> owners[oid] == if oid in before then before[oid] else p
  {
    owners := before;
    for j := 0 to |fills|
      invariant owners.Keys == before.Keys + OrderIds(fills[..j]) * recorded
      invariant forall oid :: oid in owners ==> owners[oid] == if oid in before then before[oid] else p
      invariant forall f :: f in fills[..j] && f.orderId in recorded && f.orderId in before ==>
                              before[f.orderId] == p
    {
      assert fills[..j + 1] == fills[..j] + [fills[j]];
      assert OrderIds(fills[..j + 1]) == OrderIds(fills[..j]) + {fills[j].orderId};
      if fills[j].orderId in recorded {
        if fills[j].orderId in owners && owners[fills[j].orderId] != p {
          assert fills[j] in fills;
          return false, owners;
        }
        owners := owners[fills[j].orderId := p];
      }
    }
    assert fills[..|fills|] == fills;
    return true, owners;
  }

  ghost function DirectOwners(order: seq<int>, ids: Ids, fills: seq<Fill>): Owners {
    map oid | oid in OrderIds(fills) && First(order, ids, oid).Some? :: First(order, ids, oid).value
  }

  lemma UncontestedStep(order: seq<int>, ids: Ids, fills: seq<Fill>, i: nat)
    requires i < |order| && LR.Distinct(order) && order[i] in ids
    requires Uncontested(order[..i], ids, fills)
    ensures var before := DirectOwners(order[..i], ids, fills);
            Uncontested(order[..i + 1], ids, fills)
            <==> forall f :: f in fills && f.orderId in ids[order[i]] && f.orderId in before ==>
                               before[f.orderId] == order[i]
  {
    var p := order[i];
    assert order[..i + 1] == order[..i] + [p];
    assert order[..i + 1][..i] == order[..i];
    var before := DirectOwners(order[..i], ids, fills);
    forall f | f in fills && f.orderId in ids[p] && f.orderId in before ensures before[f.orderId] != p {
      FirstIsMember(order[..i], ids, f.orderId);
    }
  }

  lemma {:induction false} FirstIsMember(order: seq<int>, ids: Ids, oid: string)
    ensures First(order, ids, oid).Some? ==>
              First(order, ids, oid).value in order && First(order, ids, oid).value in ids
              && oid in ids[First(order, ids, oid).value]
    ensures First(order, ids, oid).None? ==> forall p :: p in order && p in ids ==> oid !in ids[p]
  {
    if order != [] {
      FirstIsMember(order[..|order| - 1], ids, oid);
    }
  }

  /** Contested fills stay contested when more books are listed. */
  lemma {:induction false} ContestedPrefix(order: seq<int>, ids: Ids, fills: seq<Fill>, i: nat)
    requires i <= |order| && Uncontested(order, ids, fills)
    ensures Uncontested(order[..i], ids, fills)
    decreases |order|
  {
    if i < |order| {
      var init := order[..|order| - 1];
      forall f, p | f in fills && p in init && p in ids && f.orderId in ids[p]
        ensures First(init, ids, f.orderId) == Some(p)
      {
        FirstIsMember(init, ids, f.orderId);
        assert First(order, ids, f.orderId) == Some(p);
      }
      ContestedPrefix(init, ids, fills, i);
      assert order[..i] == init[..i];
    } else {
      assert order[..i] == order;
    }
  }

  /** The books' own order ids, one book after the other; None when two books claim a fill. */
  method ClaimDirect(order: seq<int>, ids: Ids, fills: seq<Fill>) returns (owners: Option<Owners>)
    requires LR.Distinct(order) && LR.Elements(order) == ids.Keys
    ensures owners == if Uncontested(order, ids, fills) then Some(DirectOwners(order, ids, fills)) else None
  {
    var table: Owners := map[];
    for i := 0 to |order|
      invariant Uncontested(order[..i], ids, fills)
      invariant table == DirectOwners(order[..i], ids, fills)
    {
      assert order[..i + 1][..i] == order[..i];
      assert order[i] in LR.Elements(order);
      UncontestedStep(order, ids, fills, i);
      var ok, next := Claim(order[i], ids[order[i]], fills, table);
      if !ok {
        if Uncontested(order, ids, fills) {
          ContestedPrefix(order, ids, fills, i + 1);
        }
        return None;
      }
      DirectOwnersStep(order, ids, fills, i, next);
      table := next;
    }
    assert order[..|order|] == order;
    return Some(table);
  }

  lemma DirectOwnersStep(order: seq<int>, ids: Ids, fills: seq<Fill>, i: nat, next: Owners)
    requires i < |order| && order[i] in ids
    requires next.Keys == DirectOwners(order[..i], ids, fills).Keys + OrderIds(fills) * ids[order[i]]
    requires forall oid :: oid in next ==>
                             next[oid] == if oid in DirectOwners(order[..i], ids, fills)
                                          then DirectOwners(order[..i], ids, fills)[oid] else order[i]
    ensures next == DirectOwners(order[..i + 1], ids, fills)
  {
    assert order[..i + 1][..i] == order[..i];
  }

  /** `for pid, db_path in sibs: if parent in ids: …; break` */
  method FirstClaimant(order: seq<int>, ids: Ids, oid: string) returns (p: Option<int>)
    ensures p == First(order, ids, oid)
  {
    for i := 0 to |order|
      invariant First(order[..i], ids, oid).None?
    {
      assert order[..i + 1][..i] == order[..i];
      if order[i] in ids && oid in ids[order[i]] {
        FirstPrefix(order, ids, oid, i + 1);
        return Some(order[i]);
      }
    }
    assert order[..|order|] == order;
    return None;
  }

  lemma {:induction false} FirstPrefix(order: seq<int>, ids: Ids, oid: string, i: nat)
    requires i <= |order| && First(order[..i], ids, oid).Some?
    ensures First(order, ids, oid) == First(order[..i], ids, oid)
    decreases |order|
  {
    if i < |order| {
      assert order[..|order| - 1][..i] == order[..i];
      FirstPrefix(order[..|order| - 1], ids, oid, i);
    } else {
      assert order[..i] == order;
    }
  }

  /** A spread's fills carry leg ids; the journal carries the parent order. */
  method ClaimParents(order: seq<int>, ids: Ids, fills: seq<Fill>, parents: map<string, string>, direct: Owners)
    returns (owners: Owners)
    requires direct == DirectOwners(order, ids, fills)
    ensures forall oid :: oid in owners <==> oid in OrderIds(fills) && Owner(order, ids, parents, oid).Some?
    ensures forall oid :: oid in owners ==> Some(owners[oid]) == Owner(order, ids, parents, oid)
  {
    owners := direct;
    for j := 0 to |fills|
      invariant forall oid :: oid in owners ==>
                                oid in OrderIds(fills) && Some(owners[oid]) == Owner(order, ids, parents, oid)
      invariant forall oid :: oid in direct ==> oid in owners
      invariant forall oid :: oid in OrderIds(fills[..j]) && Owner(order, ids, parents, oid).Some? ==> oid in owners
    {
      var oid := fills[j].orderId;
      assert fills[..j + 1] == fills[..j] + [fills[j]];
      assert OrderIds(fills[..j + 1]) == OrderIds(fills[..j]) + {oid};
      assert oid in OrderIds(fills);
      if oid !in owners && oid in parents {
        var p := FirstClaimant(order, ids, parents[oid]);
        if p.Some? {
          owners := owners[oid := p.value];
        }
      }
    }
    assert fills[..|fills|] == fills;
  }

  datatype Outcome = Refused | Deferred | Owned(owners: Owners)

  ghost function Attribution(order: seq<int>, ids: Ids, fills: seq<Fill>, parents: Option<map<string, string>>)
    : Outcome
  {
    if !Uncontested(order, ids, fills) then Refused
    else if Direct(order, ids, fills) then Owned(DirectOwners(order, ids, fills))
    else if parents.None? then Deferred
    else if !AllOwned(order, ids, parents.value, fills) then Refused
    else Owned(OwnersOf(order, ids, parents.value, fills))
  }

  method AttributeFills(order: seq<int>, ids: Ids, fills: seq<Fill>, parents: Option<map<string, string>>)
    returns (o: Outcome)
    requires LR.Distinct(order) && LR.Elements(order) == ids.Keys
    ensures o == Attribution(order, ids, fills, parents)
  {
    var direct := ClaimDirect(order, ids, fills);
    if direct.None? {
      return Refused;
    }
    var owners := direct.value;
    assert forall f :: f in fills ==> f.orderId in OrderIds(fills);
    if exists f :: f in fills && f.orderId !in owners {
      if parents.None? {
        return Deferred;
      }
      owners := ClaimParents(order, ids, fills, parents.value, owners);
      if exists f :: f in fills && f.orderId !in owners {
        return Refused;
      }
      assert owners == OwnersOf(order, ids, parents.value, fills);
    }
    return Owned(owners);
  }

  /** Whoever owns a fill is one of the listed books. */
  lemma OwnersAreListed(order: seq<int>, ids: Ids, fills: seq<Fill>, parents: Option<map<string, string>>)
    requires Attribution(order, ids, fills, parents).Owned?
    ensures forall f :: f in fills ==>
                          var owners := Attribution(order, ids, fills, parents).owners;
                          f.orderId in owners && owners[f.orderId] in order
  {
    forall f | f in fills
      ensures var owners := Attribution(order, ids, fills, parents).owners;
              f.orderId in owners && owners[f.orderId] in order
    {
      assert f.orderId in OrderIds(fills);
      FirstIsMember(order, ids, f.orderId);
      if parents.Some? && f.orderId in parents.value {
        FirstIsMember(order, ids, parents.value[f.orderId]);
      }
    }
  }

  // ----- the books' metrics -----

  ghost predicate Covers(owners: Owners, keys: set<int>, fills: seq<Fill>) {
    forall i :: 0 <= i < |fills| ==> fills[i].orderId in owners && owners[fills[i].orderId] in keys
  }

  /** `by_book[pid]` */
  function BookFills(fills: seq<Fill>, owners: Owners, p: int): seq<Fill> {
    if fills == [] then []
    else
      var f, before := fills[|fills| - 1], BookFills(fills[..|fills| - 1], owners, p);
      if f.orderId in owners && owners[f.orderId] == p then before + [f] else before
  }

  function Metrics(kind: Kind, fills: seq<Fill>, owners: Owners, keys: set<int>): (r: Amounts)
    ensures r.Keys == keys
  {
    map p | p in keys :: Metric(kind, BookFills(fills, owners, p))
  }

  /** Every fill is in exactly one book's list, so the books' metrics add up to the metric of all fills. */
  lemma {:induction false} MetricsPartition(kind: Kind, fills: seq<Fill>, owners: Owners, keys: set<int>)
    requires Covers(owners, keys, fills)
    ensures Total(Metrics(kind, fills, owners, keys)) == Metric(kind, fills)
  {
    if fills == [] {
      SumOfZeros(keys, Metrics(kind, fills, owners, keys));
    } else {
      var init, f := fills[..|fills| - 1], fills[|fills| - 1];
      var before, after := Metrics(kind, init, owners, keys), Metrics(kind, fills, owners, keys);
      MetricsPartition(kind, init, owners, keys);
      forall p | p in keys
        ensures after[p] == before[p] + if p == owners[f.orderId] then Base(kind, f) else 0.0
      {
        MetricAppend(kind, BookFills(init, owners, p), f);
      }
      SumChangedAt(keys, before, after, owners[f.orderId]);
    }
  }

  lemma MetricAppend(kind: Kind, fills: seq<Fill>, f: Fill)
    ensures Metric(kind, fills + [f]) == Metric(kind, fills) + Base(kind, f)
  {
    assert (fills + [f])[..|fills|] == fills;
  }

  method ByBook(order: seq<int>, fills: seq<Fill>, owners: Owners) returns (byBook: map<int, seq<Fill>>)
    requires Covers(owners, LR.Elements(order), fills)
    ensures byBook.Keys == LR.Elements(order)
    ensures forall p :: p in byBook ==> byBook[p] == BookFills(fills, owners, p)
  {
    byBook := map p | p in LR.Elements(order) :: [];
    for i := 0 to |fills|
      invariant byBook.Keys == LR.Elements(order)
      invariant forall p :: p in byBook ==> byBook[p] == BookFills(fills[..i], owners, p)
    {
      assert fills[..i + 1][..i] == fills[..i];
      var p := owners[fills[i].orderId];
      byBook := byBook[p := byBook[p] + [fills[i]]];
    }
    assert fills[..|fills|] == fills;
  }

  method BookMetrics(kind: Kind, order: seq<int>, fills: seq<Fill>, owners: Owners) returns (metrics: Amounts)
    requires Covers(owners, LR.Elements(order), fills)
    ensures metrics == Metrics(kind, fills, owners, LR.Elements(order))
  {
    var byBook := ByBook(order, fills, owners);
    metrics := map[];
    for i := 0 to |order|
      invariant metrics.Keys == LR.Elements(order[..i])
      invariant forall p :: p in metrics ==> metrics[p] == Metric(kind, BookFills(fills, owners, p))
    {
      assert order[..i + 1] == order[..i] + [order[i]];
      assert order[i] in LR.Elements(order);
      var m := FeeMetric(kind, byBook[order[i]]);
      metrics := metrics[order[i] := m];
    }
    assert order[..|order|] == order;
  }

  // ----- the decision -----

  datatype Shape = Shape(kind: Kind, base: Option<real>)

  /** A FEE activity with the broker's fills and leg parents for its day; `shape` is None when it is not recognized. */
  datatype Fee = Fee(id: string, net: real, shape: Option<Shape>, fills: seq<Fill>, parents: map<string, string>)

  /** Which reads of one pass succeed. */
  datatype Env = Env(listed: bool, fills: bool, parents: bool, unreadable: set<int>)

  /** Do the books reproduce the base the broker names? */
  predicate BaseAgrees(shape: Shape, total: real) {
    match shape.base
    case None => total > 0.0
    case Some(base) =>
      var slack := if shape.kind.REG? || shape.kind.OPT_REG? then
                     if 0.02 >= 0.001 * base then 0.02 else 0.001 * base
                   else 0.5;
      Abs(total - base) <= slack
  }

  function Recorded(rows: seq<Row>): set<string> {
    set i | 0 <= i < |rows| && rows[i].orderId != "" :: rows[i].orderId
  }

  function AllRecorded(tables: Tables): (r: Ids)
    ensures r.Keys == tables.Keys
  {
    map p | p in tables :: Recorded(tables[p])
  }

  function CentsOf(net: real): (n: nat) {
    RoundHalfEven(Abs(net) * 100.0)
  }

  /** Every listed journal can be read. */
  predicate AllReadable(order: seq<int>, unreadable: set<int>) {
    forall i :: 0 <= i < |order| ==> order[i] !in unreadable
  }

  ghost function FeeOutcome(order: seq<int>, tables: Tables, fee: Fee, env: Env): Outcome {
    if fee.shape.None? || !env.listed then Refused
    else if !env.fills then Deferred
    else if !AllReadable(order, env.unreadable) then Refused
    else Attribution(order, AllRecorded(tables), fee.fills, if env.parents then Some(fee.parents) else None)
  }

  ghost function SplitByOwners(keys: set<int>, fee: Fee, owners: Owners): Option<map<int, int>>
    requires fee.shape.Some?
  {
    var metrics := Metrics(fee.shape.value.kind, fee.fills, owners, keys);
    if BaseAgrees(fee.shape.value, Total(metrics)) then Some(SC.Shares(CentsOf(fee.net), metrics)) else None
  }

  /** The split of a fee the writer accepts; None when it refuses or defers. */
  ghost function Split(order: seq<int>, tables: Tables, fee: Fee, env: Env): Option<map<int, int>> {
    var o := FeeOutcome(order, tables, fee, env);
    if !o.Owned? then None else SplitByOwners(tables.Keys, fee, o.owners)
  }

  /** What the pass of one book books. */
  ghost function Due(own: int, order: seq<int>, tables: Tables, fee: Fee, env: Env): int {
    var split := Split(order, tables, fee, env);
    if split.Some? && own in split.value then split.value[own] else 0
  }

  lemma OwnedCovers(order: seq<int>, ids: Ids, fills: seq<Fill>, parents: Option<map<string, string>>)
    requires Attribution(order, ids, fills, parents).Owned?
    ensures Covers(Attribution(order, ids, fills, parents).owners, LR.Elements(order), fills)
  {
    OwnersAreListed(order, ids, fills, parents);
    var owners := Attribution(order, ids, fills, parents).owners;
    forall i | 0 <= i < |fills| ensures fills[i].orderId in owners && owners[fills[i].orderId] in LR.Elements(order) {
      assert fills[i] in fills;
    }
  }

  /** The base test depends on the account's fills only, never on how they were attributed. */
  lemma BaseTestIgnoresAttribution(order: seq<int>, tables: Tables, fee: Fee, env: Env)
    requires LR.Elements(order) == tables.Keys
    ensures Split(order, tables, fee, env).Some? <==>
              FeeOutcome(order, tables, fee, env).Owned?
              && BaseAgrees(fee.shape.value, Metric(fee.shape.value.kind, fee.fills))
  {
    var o := FeeOutcome(order, tables, fee, env);
    if o.Owned? {
      OwnedCovers(order, AllRecorded(tables), fee.fills, if env.parents then Some(fee.parents) else None);
      MetricsPartition(fee.shape.value.kind, fee.fills, o.owners, tables.Keys);
    }
  }

  // ----- the writer -----

  ghost function TablesOf(books: map<int, Book>): (r: Tables)
    reads books.Values
    ensures r.Keys == books.Keys
  {
    map p | p in books :: books[p].rows
  }

  /** `_journal_order_ids` of every listed book; None as soon as one is unreadable. */
  method ReadIds(order: seq<int>, books: map<int, Book>, unreadable: set<int>) returns (ids: Option<Ids>)
    requires LR.Elements(order) == books.Keys
    ensures ids == if AllReadable(order, unreadable) then Some(AllRecorded(TablesOf(books))) else None
  {
    var table: Ids := map[];
    for i := 0 to |order|
      invariant table.Keys == LR.Elements(order[..i]) <= books.Keys
      invariant AllReadable(order[..i], unreadable)
      invariant forall p :: p in table ==> table[p] == Recorded(books[p].rows)
    {
      assert order[..i + 1] == order[..i] + [order[i]];
      assert order[i] in LR.Elements(order);
      if order[i] in unreadable {
        return None;
      }
      table := table[order[i] := Recorded(books[order[i]].rows)];
    }
    assert order[..|order|] == order;
    forall p | p in books ensures table[p] == AllRecorded(TablesOf(books))[p] {
      assert TablesOf(books)[p] == books[p].rows;
    }
    assert table == AllRecorded(TablesOf(books));
    return Some(table);
  }

  /** The part of `_write_fee` that attributes the fills. */
  method AttributeFee(order: seq<int>, books: map<int, Book>, fee: Fee, env: Env) returns (o: Outcome)
    requires LR.Distinct(order) && LR.Elements(order) == books.Keys
    ensures o == FeeOutcome(order, TablesOf(books), fee, env)
  {
    if fee.shape.None? || !env.listed {
      return Refused;
    }
    if !env.fills {
      return Deferred;
    }
    var ids := ReadIds(order, books, env.unreadable);
    if ids.None? {
      return Refused;
    }
    o := AttributeFills(order, ids.value, fee.fills, if env.parents then Some(fee.parents) else None);
  }

  /** The part that decides the split. */
  method DecideSplit(order: seq<int>, books: map<int, Book>, fee: Fee, env: Env) returns (split: Option<map<int, int>>)
    requires LR.Distinct(order) && LR.Elements(order) == books.Keys
    ensures split == Split(order, TablesOf(books), fee, env)
  {
    var o := AttributeFee(order, books, fee, env);
    if !o.Owned? {
      return None;
    }
    OwnedCovers(order, AllRecorded(TablesOf(books)), fee.fills, if env.parents then Some(fee.parents) else None);
    split := SplitFee(order, fee, o.owners);
  }

  method SplitFee(order: seq<int>, fee: Fee, owners: Owners) returns (shares: Option<map<int, int>>)
    requires LR.Distinct(order) && fee.shape.Some? && Covers(owners, LR.Elements(order), fee.fills)
    ensures shares == SplitByOwners(LR.Elements(order), fee, owners)
  {
    var metrics := BookMetrics(fee.shape.value.kind, order, fee.fills, owners);
    var total := CP.SumShares(order, metrics);
    if !BaseAgrees(fee.shape.value, total) {
      return None;
    }
    var split := SC.Split(CentsOf(fee.net), metrics, order);
    return Some(split);
  }

  /** `_write_fee` for the book `own` of the account: its own table gains its share, no other table changes. */
  method WriteFee(own: int, order: seq<int>, books: map<int, Book>, fee: Fee, env: Env) returns (booked: bool)
    requires LR.Distinct(order) && LR.Elements(order) == books.Keys && own in books
    requires forall p, q :: p in books && q in books && p != q ==> books[p] != books[q]
    modifies books[own]
    ensures books[own].rows
         == Step(own, old(books[own].rows), FeeShare(fee.id, fee.net, Due(own, order, old(TablesOf(books)), fee, env)))
    ensures booked <==> |books[own].rows| == |old(books[own].rows)| + 1
    ensures forall p :: p in books && p != own ==> books[p].rows == old(books[p].rows)
  {
    if fee.id == "" || HasActivity(books[own].rows, fee.id) || fee.net == 0.0 {
      return false;
    }
    var split := DecideSplit(order, books, fee, env);
    var cents := if split.Some? && own in split.value then split.value[own] else 0;
    booked := CP.WriteFeeShare(books[own], FeeShare(fee.id, fee.net, cents));
  }

  // ----- conservation -----

  lemma {:induction false} SomePositive(keys: set<int>, m: Amounts)
    requires keys <= m.Keys && Sum(keys, m) > 0.0
    ensures exists p :: p in keys && m[p] > 0.0
    decreases |keys|
  {
    if keys != {} {
      var p := Pick(keys);
      if m[p] <= 0.0 {
        SomePositive(keys - {p}, m);
      }
    }
  }

  /** What each book carried of the base, by the owners of an accepted attribution. */
  ghost function BookBases(order: seq<int>, tables: Tables, fee: Fee, env: Env): Amounts
    requires FeeOutcome(order, tables, fee, env).Owned?
  {
    Metrics(fee.shape.value.kind, fee.fills, FeeOutcome(order, tables, fee, env).owners, tables.Keys)
  }

  /**
   An accepted split hands out the whole fee to the cent if and only if there is nothing to hand out or some book
   carried base; otherwise it hands out nothing.
   */
  lemma SplitConserves(order: seq<int>, tables: Tables, fee: Fee, env: Env)
    requires LR.Elements(order) == tables.Keys
    requires Split(order, tables, fee, env).Some?
    ensures var shares := Split(order, tables, fee, env).value;
            var bases := BookBases(order, tables, fee, env);
            && shares.Keys == tables.Keys == bases.Keys
            && (forall p :: p in shares ==> shares[p] >= 0)
            && Total(LR.AsReals(shares))
               == (if exists p :: p in bases && bases[p] > 0.0 then CentsOf(fee.net) as real else 0.0)
            && (Metric(fee.shape.value.kind, fee.fills) > 0.0 ==> exists p :: p in bases && bases[p] > 0.0)
  {
    var bases := BookBases(order, tables, fee, env);
    if Metric(fee.shape.value.kind, fee.fills) > 0.0 {
      OwnedCovers(order, AllRecorded(tables), fee.fills, if env.parents then Some(fee.parents) else None);
      MetricsPartition(fee.shape.value.kind, fee.fills, FeeOutcome(order, tables, fee, env).owners, tables.Keys);
      SomePositive(bases.Keys, bases);
    }
    var shares := SC.Shares(CentsOf(fee.net), bases);
    SC.SharesConserve(CentsOf(fee.net), bases);
    SC.SomeWeight(bases);
    forall p | p in shares ensures shares[p] >= 0 {
      SC.ShareIsQuotaRounded(CentsOf(fee.net), bases, p);
    }
  }

  /** The broker reports no negative quantity or price. */
  ghost predicate Clean(fills: seq<Fill>) {
    forall i :: 0 <= i < |fills| ==> fills[i].qty >= 0.0 && fills[i].price >= 0.0
  }

  lemma BaseIsNonNegative(kind: Kind, f: Fill)
    requires f.qty >= 0.0 && f.price >= 0.0
    ensures Base(kind, f) >= 0.0
  {
  }

  lemma {:induction false} BookMetricIsNonNegative(kind: Kind, fills: seq<Fill>, owners: Owners, p: int)
    requires Clean(fills) && forall i :: 0 <= i < |fills| ==> fills[i].orderId in owners
    ensures Metric(kind, BookFills(fills, owners, p)) >= 0.0
  {
    if fills != [] {
      var init, f := fills[..|fills| - 1], fills[|fills| - 1];
      BookMetricIsNonNegative(kind, init, owners, p);
      BaseIsNonNegative(kind, f);
      MetricAppend(kind, BookFills(init, owners, p), f);
    }
  }

  /** On clean fills some book carried base exactly when the account's fills carry any. */
  lemma SomeBookCarried(order: seq<int>, tables: Tables, fee: Fee, env: Env)
    requires LR.Elements(order) == tables.Keys && Clean(fee.fills)
    requires FeeOutcome(order, tables, fee, env).Owned?
    ensures var bases := BookBases(order, tables, fee, env);
            && (Metric(fee.shape.value.kind, fee.fills) > 0.0 <==> exists p :: p in bases && bases[p] > 0.0)
            && Metric(fee.shape.value.kind, fee.fills) >= 0.0
  {
    var kind, owners := fee.shape.value.kind, FeeOutcome(order, tables, fee, env).owners;
    var bases := BookBases(order, tables, fee, env);
    OwnedCovers(order, AllRecorded(tables), fee.fills, if env.parents then Some(fee.parents) else None);
    MetricsPartition(kind, fee.fills, owners, tables.Keys);
    forall p | p in bases ensures bases[p] >= 0.0 {
      BookMetricIsNonNegative(kind, fee.fills, owners, p);
    }
    SumOfNonNegative(bases.Keys, bases);
  }

  lemma SumOfNonNegative(keys: set<int>, m: Amounts)
    requires keys == m.Keys && forall p :: p in m ==> m[p] >= 0.0
    ensures Sum(keys, m) >= 0.0
    ensures Sum(keys, m) > 0.0 <==> exists p :: p in m && m[p] > 0.0
  {
    LowerBound(keys, m);
    if p :| p in m && m[p] > 0.0 {
      SumPick(keys, m, p);
      LowerBound(keys - {p}, m);
    } else {
      SumOfZeros(keys, m);
    }
  }

  lemma {:induction false} LowerBound(keys: set<int>, m: Amounts)
    requires keys <= m.Keys && forall p :: p in keys ==> m[p] >= 0.0
    ensures Sum(keys, m) >= 0.0
    decreases |keys|
  {
    if keys != {} {
      LowerBound(keys - {Pick(keys)}, m);
    }
  }

  /** On clean fills an accepted split is whole if and only if the fills carry base or the fee rounds to nothing. */
  lemma SplitIsWholeIff(order: seq<int>, tables: Tables, fee: Fee, env: Env)
    requires LR.Elements(order) == tables.Keys && Clean(fee.fills)
    requires Split(order, tables, fee, env).Some?
    ensures Total(LR.AsReals(Split(order, tables, fee, env).value)) == CentsOf(fee.net) as real
       <==> CentsOf(fee.net) == 0 || Metric(fee.shape.value.kind, fee.fills) > 0.0
  {
    SplitConserves(order, tables, fee, env);
    SomeBookCarried(order, tables, fee, env);
  }

  /** A base that the test takes for nothing at all. */
  predicate Negligible(shape: Shape) {
    shape.base.Some? && Abs(shape.base.value) <= if shape.kind.REG? || shape.kind.OPT_REG? then 0.02 else 0.5
  }

  lemma NothingAgreesIff(shape: Shape)
    ensures BaseAgrees(shape, 0.0) <==> Negligible(shape)
  {
  }

  /**
   A fee whose fills have one owner each is lost, accepted but handed out to nobody, if and only if there is something
   to hand out, no fill carries base, and the base the broker names is negligible.
   */
  lemma FeeIsLostIff(order: seq<int>, tables: Tables, fee: Fee, env: Env)
    requires LR.Elements(order) == tables.Keys && Clean(fee.fills)
    requires FeeOutcome(order, tables, fee, env).Owned?
    ensures Split(order, tables, fee, env).Some?
            && Total(LR.AsReals(Split(order, tables, fee, env).value)) != CentsOf(fee.net) as real
       <==> CentsOf(fee.net) > 0 && Metric(fee.shape.value.kind, fee.fills) == 0.0 && Negligible(fee.shape.value)
  {
    SomeBookCarried(order, tables, fee, env);
    BaseTestIgnoresAttribution(order, tables, fee, env);
    NothingAgreesIff(fee.shape.value);
    if Split(order, tables, fee, env).Some? {
      SplitIsWholeIff(order, tables, fee, env);
    }
  }

  /**
   Such a fee: it names a base of two cents, is accepted although no fill carries it, and then no book books anything,
   so that it is neither refused nor booked.
   */
  lemma TinyBaseIsLost(net: real)
    ensures var fee := Fee("f", net, Some(Shape(REG, Some(0.02))), [], map[]);
            var env := Env(true, true, true, {});
            Split([1], map[1 := []], fee, env) == Some(map[1 := 0])
  {
    var fills: seq<Fill> := [];
    var fee := Fee("f", net, Some(Shape(REG, Some(0.02))), fills, map[]);
    var env := Env(true, true, true, {});
    var tables: Tables := map[1 := []];
    assert Uncontested([1], AllRecorded(tables), fills);
    assert Direct([1], AllRecorded(tables), fills);
    var owners := FeeOutcome([1], tables, fee, env).owners;
    var metrics := Metrics(REG, fills, owners, tables.Keys);
    SumOfZeros(metrics.Keys, metrics);
    SumOfZeros(metrics.Keys, SC.Positive(metrics));
    assert SC.Shares(CentsOf(net), metrics) == map[1 := 0];
  }

  // ----- what is accepted, and how it is shared -----

  /** The fills of one asset class on the selling side. */
  function Sold(fills: seq<Fill>, options: bool): seq<Fill> {
    if fills == [] then []
    else
      var before := Sold(fills[..|fills| - 1], options);
      var last := fills[|fills| - 1];
      if last.isOption == options && last.sells then before + [last] else before
  }

  function OptionFills(fills: seq<Fill>): seq<Fill> {
    if fills == [] then []
    else
      var before := OptionFills(fills[..|fills| - 1]);
      if fills[|fills| - 1].isOption then before + [fills[|fills| - 1]] else before
  }

  function Quantity(fills: seq<Fill>): real {
    if fills == [] then 0.0 else Quantity(fills[..|fills| - 1]) + fills[|fills| - 1].qty
  }

  function Proceeds(fills: seq<Fill>): real {
    if fills == [] then 0.0
    else Proceeds(fills[..|fills| - 1]) + Times(fills[|fills| - 1].qty, fills[|fills| - 1].price)
  }

  /**
   What the broker charges each kind of fee on: stock sell proceeds, option sell premium at a hundred a contract, fill
   events, shares sold, contracts sold, contracts traded either way.
   */
  function ChargedOn(kind: Kind, fills: seq<Fill>): real {
    match kind
    case REG => Proceeds(Sold(fills, false))
    case OPT_REG => 100.0 * Proceeds(Sold(fills, true))
    case CAT => |fills| as real
    case TAF => Quantity(Sold(fills, false))
    case OPT_TAF => Quantity(Sold(fills, true))
    case ORF => Quantity(OptionFills(fills))
    case OCC => Quantity(OptionFills(fills))
  }

  lemma QuantityAppend(fills: seq<Fill>, f: Fill)
    ensures Quantity(fills + [f]) == Quantity(fills) + f.qty
    ensures Proceeds(fills + [f]) == Proceeds(fills) + Times(f.qty, f.price)
  {
    assert (fills + [f])[..|fills|] == fills;
  }

  lemma SoldStep(fills: seq<Fill>, options: bool)
    requires fills != []
    ensures var before, f := Sold(fills[..|fills| - 1], options), fills[|fills| - 1];
            var counts := f.isOption == options && f.sells;
            && Quantity(Sold(fills, options)) == Quantity(before) + (if counts then f.qty else 0.0)
            && Proceeds(Sold(fills, options)) == Proceeds(before) + (if counts then Times(f.qty, f.price) else 0.0)
  {
    QuantityAppend(Sold(fills[..|fills| - 1], options), fills[|fills| - 1]);
  }

  lemma OptionFillsStep(fills: seq<Fill>)
    requires fills != []
    ensures var f := fills[|fills| - 1];
            Quantity(OptionFills(fills))
            == Quantity(OptionFills(fills[..|fills| - 1])) + if f.isOption then f.qty else 0.0
  {
    QuantityAppend(OptionFills(fills[..|fills| - 1]), fills[|fills| - 1]);
  }

  lemma ProceedsOf(f: Fill)
    ensures f.qty * f.price == Times(f.qty, f.price)
    ensures f.qty * f.price * 100.0 == 100.0 * Times(f.qty, f.price)
  {
  }

  lemma ChargedOnStep(kind: Kind, fills: seq<Fill>)
    requires fills != []
    ensures ChargedOn(kind, fills) == ChargedOn(kind, fills[..|fills| - 1]) + Base(kind, fills[|fills| - 1])
  {
    match kind
    case REG => RegStep(fills);
    case OPT_REG => OptRegStep(fills);
    case CAT =>
    case TAF => SoldStep(fills, false);
    case OPT_TAF => SoldStep(fills, true);
    case ORF => OptionFillsStep(fills);
    case OCC => OptionFillsStep(fills);
  }

  lemma RegStep(fills: seq<Fill>)
    requires fills != []
    ensures ChargedOn(REG, fills) == ChargedOn(REG, fills[..|fills| - 1]) + Base(REG, fills[|fills| - 1])
  {
    SoldStep(fills, false);
  }

  lemma OptRegStep(fills: seq<Fill>)
    requires fills != []
    ensures ChargedOn(OPT_REG, fills) == ChargedOn(OPT_REG, fills[..|fills| - 1]) + Base(OPT_REG, fills[|fills| - 1])
  {
    SoldStep(fills, true);
    ProceedsOf(fills[|fills| - 1]);
  }

  /** The metric of a list of fills is what its kind of fee is charged on. */
  lemma {:induction false} MetricIsChargedOn(kind: Kind, fills: seq<Fill>)
    ensures Metric(kind, fills) == ChargedOn(kind, fills)
  {
    if fills != [] {
      MetricIsChargedOn(kind, fills[..|fills| - 1]);
      ChargedOnStep(kind, fills);
    }
  }

  lemma {:induction false} FirstIsFirst(order: seq<int>, ids: Ids, oid: string) returns (i: nat)
    ensures i <= |order| && forall j :: 0 <= j < i ==> !(order[j] in ids && oid in ids[order[j]])
    ensures if i < |order| then First(order, ids, oid) == Some(order[i]) && order[i] in ids && oid in ids[order[i]]
            else First(order, ids, oid).None?
  {
    i := 0;
    if order != [] {
      var init := order[..|order| - 1];
      i := FirstIsFirst(init, ids, oid);
      assert forall j :: 0 <= j < |init| ==> order[j] == init[j];
      if i == |init| && !(order[i] in ids && oid in ids[order[i]]) {
        i := i + 1;
      }
    }
  }

  /** Some listed book has the order on record. */
  ghost predicate Claimed(order: seq<int>, tables: Tables, oid: string) {
    exists p :: p in order && p in tables && oid in Recorded(tables[p])
  }

  /** No two listed books have it on record. */
  ghost predicate OneClaimant(order: seq<int>, tables: Tables, oid: string) {
    forall p, q :: p in order && q in order && p in tables && q in tables ==>
                     (oid in Recorded(tables[p]) && oid in Recorded(tables[q]) ==> p == q)
  }

  lemma ClaimedIff(order: seq<int>, tables: Tables, oid: string)
    ensures First(order, AllRecorded(tables), oid).Some? <==> Claimed(order, tables, oid)
  {
    FirstIsMember(order, AllRecorded(tables), oid);
  }

  lemma OneClaimantIsFirst(order: seq<int>, tables: Tables, oid: string, p: int)
    requires OneClaimant(order, tables, oid) && p in order && p in tables && oid in Recorded(tables[p])
    ensures First(order, AllRecorded(tables), oid) == Some(p)
  {
    FirstIsMember(order, AllRecorded(tables), oid);
    assert oid in AllRecorded(tables)[p];
    var r := First(order, AllRecorded(tables), oid).value;
    assert oid in Recorded(tables[r]);
  }

  lemma UncontestedIff(order: seq<int>, tables: Tables, fills: seq<Fill>)
    ensures Uncontested(order, AllRecorded(tables), fills)
       <==> forall g :: g in fills ==> OneClaimant(order, tables, g.orderId)
  {
    var ids := AllRecorded(tables);
    if forall g :: g in fills ==> OneClaimant(order, tables, g.orderId) {
      forall g, p | g in fills && p in order && p in ids && g.orderId in ids[p]
        ensures First(order, ids, g.orderId) == Some(p)
      {
        assert OneClaimant(order, tables, g.orderId);
        OneClaimantIsFirst(order, tables, g.orderId, p);
      }
    } else {
      var g, p, q :| g in fills && p in order && q in order && p in tables && q in tables
                     && g.orderId in Recorded(tables[p]) && g.orderId in Recorded(tables[q]) && p != q;
      assert g.orderId in ids[p] && g.orderId in ids[q];
    }
  }

  lemma ReadableIff(order: seq<int>, unreadable: set<int>)
    ensures AllReadable(order, unreadable) <==> forall p :: p in order ==> p !in unreadable
  {
    if forall p :: p in order ==> p !in unreadable {
      forall i | 0 <= i < |order| ensures order[i] !in unreadable {
        assert order[i] in order;
      }
    }
  }

  /**
   A fee gets owners exactly when it is recognized, the books, fills and journals can be read, no two books have a
   fill's order on record, and every fill is claimed, by its own order or, where the leg parents are known, by its
   parent's.
   */
  lemma OwnedIff(order: seq<int>, tables: Tables, fee: Fee, env: Env)
    ensures FeeOutcome(order, tables, fee, env).Owned?
       <==> && fee.shape.Some? && env.listed && env.fills && (forall p :: p in order ==> p !in env.unreadable)
            && (forall g :: g in fee.fills ==>
                              && OneClaimant(order, tables, g.orderId)
                              && (Claimed(order, tables, g.orderId)
                                  || (env.parents && g.orderId in fee.parents
                                      && Claimed(order, tables, fee.parents[g.orderId]))))
  {
    UncontestedIff(order, tables, fee.fills);
    forall g | g in fee.fills
      ensures First(order, AllRecorded(tables), g.orderId).Some? <==> Claimed(order, tables, g.orderId)
      ensures g.orderId in fee.parents ==>
                (First(order, AllRecorded(tables), fee.parents[g.orderId]).Some?
                 <==> Claimed(order, tables, fee.parents[g.orderId]))
    {
      ClaimedIff(order, tables, g.orderId);
      if g.orderId in fee.parents {
        ClaimedIff(order, tables, fee.parents[g.orderId]);
      }
    }
    ReadableIff(order, env.unreadable);
  }

  /**
   A fee with owners is accepted exactly when its fills reproduce the base the broker names, to two cents or a
   thousandth for the dollar bases and to a half for the counts, or carry some base where it names none.
   */
  lemma AcceptedIff(order: seq<int>, tables: Tables, fee: Fee, env: Env)
    requires LR.Elements(order) == tables.Keys && FeeOutcome(order, tables, fee, env).Owned?
    ensures var kind, total := fee.shape.value.kind, ChargedOn(fee.shape.value.kind, fee.fills);
            Split(order, tables, fee, env).Some?
            <==> match fee.shape.value.base
                 case None => total > 0.0
                 case Some(base) =>
                   if kind in {REG, OPT_REG}
                   then base - 0.02 <= total <= base + 0.02 || 0.999 * base <= total <= 1.001 * base
                   else base - 0.5 <= total <= base + 0.5
  {
    BaseTestIgnoresAttribution(order, tables, fee, env);
    MetricIsChargedOn(fee.shape.value.kind, fee.fills);
  }

  lemma OneSale(oid: string, qty: real, price: real)
    ensures ChargedOn(REG, [Fill(oid, false, true, qty, price)]) == Times(qty, price)
  {
    var g := Fill(oid, false, true, qty, price);
    assert [g][..0] == [] && [] + [g] == [g];
    assert Sold([g], false) == [g];
    QuantityAppend([], g);
  }

  /** A fee on a base of 10000 of which the journals show 4000 is not accepted, though its fill has an owner. */
  lemma FarBaseIsRefused(oid: string, tables: Tables)
    requires tables.Keys == {1} && oid in Recorded(tables[1])
    ensures var fee := Fee("f", -0.23, Some(Shape(REG, Some(10000.0))), [Fill(oid, false, true, 40.0, 100.0)], map[]);
            && FeeOutcome([1], tables, fee, Env(true, true, true, {})).Owned?
            && Split([1], tables, fee, Env(true, true, true, {})).None?
  {
    var fee := Fee("f", -0.23, Some(Shape(REG, Some(10000.0))), [Fill(oid, false, true, 40.0, 100.0)], map[]);
    assert 1 in [1] && Claimed([1], tables, oid);
    OwnedIff([1], tables, fee, Env(true, true, true, {}));
    AcceptedIff([1], tables, fee, Env(true, true, true, {}));
    OneSale(oid, 40.0, 100.0);
  }

  /** A book's fills are the fills it owns. */
  lemma {:induction false} BookFillsAre(fills: seq<Fill>, owners: Owners, p: int, g: Fill)
    ensures g in BookFills(fills, owners, p) <==> g in fills && g.orderId in owners && owners[g.orderId] == p
  {
    if fills != [] {
      var init, last := fills[..|fills| - 1], fills[|fills| - 1];
      BookFillsAre(init, owners, p, g);
      assert fills == init + [last];
    }
  }

  /** The owner of a fill has its order on record, or is the first listed book with its parent's where nobody has. */
  lemma OwnerHasOrder(order: seq<int>, tables: Tables, fee: Fee, env: Env, g: Fill) returns (i: nat)
    requires FeeOutcome(order, tables, fee, env).Owned? && g in fee.fills
    ensures var owners := FeeOutcome(order, tables, fee, env).owners;
            i < |order| && order[i] in tables && g.orderId in owners && owners[g.orderId] == order[i]
    ensures if Claimed(order, tables, g.orderId) then g.orderId in Recorded(tables[order[i]])
            else g.orderId in fee.parents && fee.parents[g.orderId] in Recorded(tables[order[i]])
                 && forall j :: 0 <= j < i && order[j] in tables ==>
                                  fee.parents[g.orderId] !in Recorded(tables[order[j]])
  {
    var ids := AllRecorded(tables);
    OwnerOf(order, tables, fee, env, g);
    ClaimedIff(order, tables, g.orderId);
    i := FirstIsFirst(order, ids, g.orderId);
    if !Claimed(order, tables, g.orderId) {
      i := FirstIsFirst(order, ids, fee.parents[g.orderId]);
    }
  }

  lemma OwnerOf(order: seq<int>, tables: Tables, fee: Fee, env: Env, g: Fill)
    requires FeeOutcome(order, tables, fee, env).Owned? && g in fee.fills
    ensures var owners := FeeOutcome(order, tables, fee, env).owners;
            g.orderId in owners && Owner(order, AllRecorded(tables), fee.parents, g.orderId) == Some(owners[g.orderId])
  {
    assert g.orderId in OrderIds(fee.fills);
    if Direct(order, AllRecorded(tables), fee.fills) {
      assert First(order, AllRecorded(tables), g.orderId).Some?;
    }
  }

  /** The share is `own` parts of `base` of the cents, to within less than one cent. */
  ghost predicate NearPart(base: real, share: int, cents: nat, own: real) {
    Abs(Times(base, LR.ToReal(share)) - Times(cents as real, own)) < base
  }

  /**
   Pro rata: on clean fills that carry base, a book's share of an accepted fee is its own part of the base, to within
   less than one cent.
   */
  lemma ShareIsOwnPart(order: seq<int>, tables: Tables, fee: Fee, env: Env, p: int)
    requires LR.Elements(order) == tables.Keys && Clean(fee.fills) && p in tables
    requires Split(order, tables, fee, env).Some? && ChargedOn(fee.shape.value.kind, fee.fills) > 0.0
    ensures var kind, owners := fee.shape.value.kind, FeeOutcome(order, tables, fee, env).owners;
            p in Split(order, tables, fee, env).value
            && NearPart(ChargedOn(kind, fee.fills), Split(order, tables, fee, env).value[p],
                        CentsOf(fee.net), ChargedOn(kind, BookFills(fee.fills, owners, p)))
  {
    var kind, owners := fee.shape.value.kind, FeeOutcome(order, tables, fee, env).owners;
    MetricIsChargedOn(kind, fee.fills);
    MetricIsChargedOn(kind, BookFills(fee.fills, owners, p));
    ShareOfMetric(order, tables, fee, env, p, ChargedOn(kind, fee.fills),
                  ChargedOn(kind, BookFills(fee.fills, owners, p)));
  }

  lemma ShareOfMetric(order: seq<int>, tables: Tables, fee: Fee, env: Env, p: int, base: real, own: real)
    requires LR.Elements(order) == tables.Keys && Clean(fee.fills) && p in tables
    requires Split(order, tables, fee, env).Some? && base == Metric(fee.shape.value.kind, fee.fills) > 0.0
    requires own == Metric(fee.shape.value.kind, BookFills(fee.fills, FeeOutcome(order, tables, fee, env).owners, p))
    ensures p in Split(order, tables, fee, env).value
    ensures NearPart(base, Split(order, tables, fee, env).value[p], CentsOf(fee.net), own)
  {
    var kind, owners := fee.shape.value.kind, FeeOutcome(order, tables, fee, env).owners;
    OwnedCovers(order, AllRecorded(tables), fee.fills, if env.parents then Some(fee.parents) else None);
    PartOfBase(kind, fee.fills, owners, tables.Keys, CentsOf(fee.net), p, base, own);
    SplitIsShares(order, tables, fee, env);
  }

  lemma SplitIsShares(order: seq<int>, tables: Tables, fee: Fee, env: Env)
    requires Split(order, tables, fee, env).Some?
    ensures var owners := FeeOutcome(order, tables, fee, env).owners;
            Split(order, tables, fee, env).value
            == SC.Shares(CentsOf(fee.net), Metrics(fee.shape.value.kind, fee.fills, owners, tables.Keys))
  {
  }

  lemma BasesAreWeights(kind: Kind, fills: seq<Fill>, owners: Owners, keys: set<int>)
    requires Covers(owners, keys, fills) && Clean(fills)
    ensures SC.Positive(Metrics(kind, fills, owners, keys)) == Metrics(kind, fills, owners, keys)
    ensures forall p :: p in keys ==> Metrics(kind, fills, owners, keys)[p] >= 0.0
  {
    var bases := Metrics(kind, fills, owners, keys);
    forall r | r in bases ensures bases[r] >= 0.0 {
      BookMetricIsNonNegative(kind, fills, owners, r);
    }
  }

  lemma PartOfTotal(bases: Amounts, cents: nat, p: int)
    requires p in bases && SC.Positive(bases) == bases && Total(bases) > 0.0 && bases[p] >= 0.0
    ensures NearPart(Total(bases), SC.Shares(cents, bases)[p], cents, bases[p])
  {
    SC.ShareIsProRata(cents, bases, p);
  }

  lemma PartOfBase(kind: Kind, fills: seq<Fill>, owners: Owners, keys: set<int>, cents: nat, p: int, base: real,
                   own: real)
    requires Covers(owners, keys, fills) && Clean(fills) && p in keys
    requires base == Metric(kind, fills) > 0.0 && own == Metric(kind, BookFills(fills, owners, p))
    ensures NearPart(base, SC.Shares(cents, Metrics(kind, fills, owners, keys))[p], cents, own)
  {
    MetricsPartition(kind, fills, owners, keys);
    BasesAreWeights(kind, fills, owners, keys);
    PartOfTotal(Metrics(kind, fills, owners, keys), cents, p);
  }
}

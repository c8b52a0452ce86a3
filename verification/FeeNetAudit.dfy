/**
 The fee adjustment of the cash-parity audit (`aggregate_audit.py`): the account's fees that no journal has booked,
 read through a six-hour cache of the broker's fee list.
 */
module FeeNetAudit {
  import opened Money
  import opened Sums
  import opened Accounts
  import opened Journal
  import opened FeeCapture
  import opened FeeProtocol
  import LR = LargestRemainder

  /** `'%::%'`: the shape of an activity id. */
  predicate Colons(id: string) {
    id != "" && ("::" <= id || Colons(id[1..]))
  }

  const VOIDED := "::voided"

  predicate HasVoided(id: string) {
    VOIDED <= id || (id != "" && HasVoided(id[1..]))
  }

  /** `oid.split("::voided")[0]` */
  function Unvoided(id: string): string {
    if id == "" || VOIDED <= id then "" else [id[0]] + Unvoided(id[1..])
  }

  lemma {:induction false} UnvoidedIs(id: string)
    requires !HasVoided(id)
    ensures Unvoided(id) == id
  {
    if id != "" {
      UnvoidedIs(id[1..]);
      assert id == [id[0]] + id[1..];
    }
  }

  /** An id has the shape of an activity id exactly if it has two colons in a row somewhere. */
  lemma {:induction false} ColonsIff(id: string)
    ensures Colons(id) <==> exists k :: 0 <= k < |id| - 1 && id[k] == ':' && id[k + 1] == ':'
  {
    if id != "" {
      ColonsIff(id[1..]);
      assert "::" <= id ==> id[0] == ':' && id[1] == ':';
      if k :| 0 <= k < |id| - 1 && id[k] == ':' && id[k + 1] == ':' {
        if k > 0 {
          assert id[1..][k - 1] == ':' && id[1..][k] == ':';
        } else {
          assert id[..2] == "::";
        }
      }
      if k :| 0 <= k < |id[1..]| - 1 && id[1..][k] == ':' && id[1..][k + 1] == ':' {
        assert id[k + 1] == ':' && id[k + 2] == ':';
      }
    }
  }

  /** A voided id is cut back to the part before its first mark. */
  lemma {:induction false} UnvoidedCuts(a: string, b: string)
    requires forall k :: 0 <= k < |a| ==> !(VOIDED <= (a + VOIDED + b)[k..])
    ensures Unvoided(a + VOIDED + b) == a
  {
    var id := a + VOIDED + b;
    if a == "" {
      assert id == VOIDED + b;
    } else {
      assert id[1..] == a[1..] + VOIDED + b && id[0..] == id;
      forall k | 0 <= k < |a[1..]| ensures !(VOIDED <= (a[1..] + VOIDED + b)[k..]) {
        assert (a[1..] + VOIDED + b)[k..] == id[k + 1..];
      }
      UnvoidedCuts(a[1..], b);
    }
  }

  function IdsOf(rows: seq<Row>): set<string> {
    set row | row in rows && Colons(row.orderId) :: Unvoided(row.orderId)
  }

  /** Some listed journal that can be read mentions the activity, voided or not. */
  ghost predicate Journals(tables: Tables, books: seq<int>, unreadable: set<int>, id: string) {
    exists i :: 0 <= i < |books| && books[i] in tables && books[i] !in unreadable && id in IdsOf(tables[books[i]])
  }

  ghost function NetOf(acts: seq<Fee>, booked: set<string>): real {
    if acts == [] then 0.0
    else NetOf(acts[..|acts| - 1], booked) + if acts[|acts| - 1].id in booked then 0.0 else acts[|acts| - 1].net
  }

  ghost predicate Shaped(acts: seq<Fee>) {
    forall i :: 0 <= i < |acts| ==> Colons(acts[i].id)
  }

  ghost predicate NoneVoided(tables: Tables) {
    forall p, i :: p in tables && 0 <= i < |tables[p]| ==> !HasVoided(tables[p][i].orderId)
  }

  /** For fees with activity ids, with every journal read and nothing voided, this is the fee net of the protocol. */
  lemma {:induction false} NetOfIsFeeNet(acts: seq<Fee>, tables: Tables, books: seq<int>, booked: set<string>)
    requires LR.Elements(books) == tables.Keys && Shaped(acts) && NoneVoided(tables)
    requires forall id :: id in booked <==> Journals(tables, books, {}, id)
    ensures NetOf(acts, booked) == FeeNet(acts, tables)
  {
    if acts != [] {
      var id := acts[|acts| - 1].id;
      NetOfIsFeeNet(acts[..|acts| - 1], tables, books, booked);
      assert Colons(id);
      JournalsIsJournaled(tables, books, id);
    }
  }

  lemma RowsJournal(tables: Tables, p: int, id: string)
    requires p in tables && NoneVoided(tables) && Colons(id)
    ensures id in IdsOf(tables[p]) <==> HasActivity(tables[p], id)
  {
    forall j | 0 <= j < |tables[p]| ensures Unvoided(tables[p][j].orderId) == tables[p][j].orderId {
      UnvoidedIs(tables[p][j].orderId);
    }
    if HasActivity(tables[p], id) {
      var j :| 0 <= j < |tables[p]| && tables[p][j].orderId == id;
      assert tables[p][j] in tables[p];
    }
  }

  lemma JournalsIsJournaled(tables: Tables, books: seq<int>, id: string)
    requires LR.Elements(books) == tables.Keys && Colons(id) && NoneVoided(tables)
    ensures Journals(tables, books, {}, id) <==> Journaled(tables, id)
  {
    if Journaled(tables, id) {
      var p :| p in tables && HasActivity(tables[p], id);
      RowsJournal(tables, p, id);
      assert p in LR.Elements(books);
      var i :| 0 <= i < |books| && books[i] == p;
      assert books[i] in tables && books[i] !in {} && id in IdsOf(tables[books[i]]);
    }
    if Journals(tables, books, {}, id) {
      var i :| 0 <= i < |books| && books[i] in tables && books[i] !in {} && id in IdsOf(tables[books[i]]);
      RowsJournal(tables, books[i], id);
    }
  }

  /** The nets of the fees that one set has and the other misses. */
  ghost function NetMissed(acts: seq<Fee>, some: set<string>, all: set<string>): real {
    if acts == [] then 0.0
    else
      var f := acts[|acts| - 1];
      NetMissed(acts[..|acts| - 1], some, all) + if f.id in all && f.id !in some then f.net else 0.0
  }

  /**
   What unreadable journals do: the fees booked in them alone are adjusted for once more, on top of what their own
   journal cash already carries.
   */
  lemma {:induction false} UnreadableAdjustsAgain(acts: seq<Fee>, tables: Tables, books: seq<int>, unreadable: set<int>,
                                                  some: set<string>, all: set<string>)
    requires forall id :: id in some <==> Journals(tables, books, unreadable, id)
    requires forall id :: id in all <==> Journals(tables, books, {}, id)
    ensures some <= all && NetOf(acts, some) == NetOf(acts, all) + NetMissed(acts, some, all)
  {
    forall id | id in some ensures id in all {
      var i :| 0 <= i < |books| && books[i] in tables && books[i] !in unreadable && id in IdsOf(tables[books[i]]);
      assert books[i] !in {};
    }
    if acts != [] {
      UnreadableAdjustsAgain(acts[..|acts| - 1], tables, books, unreadable, some, all);
    }
  }

  lemma JournalsExtend(tables: Tables, books: seq<int>, unreadable: set<int>, i: nat, id: string)
    requires i < |books| && books[i] in tables
    ensures Journals(tables, books[..i + 1], unreadable, id)
       <==> Journals(tables, books[..i], unreadable, id) || (books[i] !in unreadable && id in IdsOf(tables[books[i]]))
  {
    var some, more := books[..i], books[..i + 1];
    assert more[i] == books[i];
    if Journals(tables, some, unreadable, id) {
      var j :| 0 <= j < i && some[j] in tables && some[j] !in unreadable && id in IdsOf(tables[some[j]]);
      assert more[j] == some[j];
    }
    if Journals(tables, more, unreadable, id) {
      var j :| 0 <= j < i + 1 && more[j] in tables && more[j] !in unreadable && id in IdsOf(tables[more[j]]);
      assert j < i ==> some[j] == more[j];
    }
  }

  const FEE_NET_TTL := 21600.0

  /** `_FEE_NET_CACHE` */
  class FeeCache {
    var cached: map<string, (real, seq<Fee>)>

    /** The fee list one audit works with: the cached one while it is young or the fetch fails, else the fetched one. */
    ghost function List(key: string, now: real, fetched: Option<seq<Fee>>): seq<Fee>
      reads this
    {
      if key in cached && now - cached[key].0 < FEE_NET_TTL then cached[key].1
      else if fetched.Some? then fetched.value
      else if key in cached then cached[key].1
      else []
    }

    /** The activity-shaped order ids of one journal. */
    static method IdsIn(rows: seq<Row>) returns (ids: set<string>)
      ensures ids == IdsOf(rows)
    {
      ids := {};
      for j := 0 to |rows|
        invariant ids == IdsOf(rows[..j])
      {
        assert rows[..j + 1] == rows[..j] + [rows[j]];
        if Colons(rows[j].orderId) {
          ids := ids + {Unvoided(rows[j].orderId)};
        }
      }
      assert rows[..|rows|] == rows;
    }

    /** `_journaled_activity_ids`: a journal that cannot be read is skipped. */
    static method JournaledIds(tables: Tables, books: seq<int>, unreadable: set<int>) returns (ids: set<string>)
      requires LR.Elements(books) <= tables.Keys
      ensures forall id :: id in ids <==> Journals(tables, books, unreadable, id)
    {
      ids := {};
      for i := 0 to |books|
        invariant forall id :: id in ids <==> Journals(tables, books[..i], unreadable, id)
      {
        assert books[i] in LR.Elements(books);
        forall id
          ensures Journals(tables, books[..i + 1], unreadable, id)
             <==> Journals(tables, books[..i], unreadable, id)
                  || (books[i] !in unreadable && id in IdsOf(tables[books[i]]))
        {
          JournalsExtend(tables, books, unreadable, i, id);
        }
        if books[i] !in unreadable {
          var more := IdsIn(tables[books[i]]);
          ids := ids + more;
        }
      }
      assert books[..|books|] == books;
    }

    /** `_account_fee_net`: what no readable journal has booked of the fees on the list. */
    method AccountFeeNet(key: string, now: real, fetched: Option<seq<Fee>>, tables: Tables, books: seq<int>,
                         unreadable: set<int>)
      returns (net: real, ghost booked: set<string>)
      requires LR.Elements(books) == tables.Keys
      modifies this
      ensures forall id :: id in booked <==> Journals(tables, books, unreadable, id)
      ensures net == NetOf(old(List(key, now, fetched)), booked)
      ensures key in old(cached) && now < old(cached)[key].0 + 6.0 * 3600.0 ==> net == NetOf(old(cached)[key].1, booked)
      ensures !(key in old(cached) && now < old(cached)[key].0 + 6.0 * 3600.0) && fetched.Some? ==>
                net == NetOf(fetched.value, booked)
      ensures key in old(cached) && fetched.None? ==> net == NetOf(old(cached)[key].1, booked)
      ensures key !in old(cached) && fetched.None? ==> net == 0.0
      ensures unreadable == {} && NoneVoided(tables) && Shaped(old(List(key, now, fetched))) ==>
                net == FeeNet(old(List(key, now, fetched)), tables)
      ensures cached == if fetched.Some? && !(key in old(cached) && now - old(cached)[key].0 < FEE_NET_TTL)
                        then old(cached)[key := (now, fetched.value)] else old(cached)
    {
      ghost var list := List(key, now, fetched);
      var acts: seq<Fee> := [];
      if key in cached && now - cached[key].0 < FEE_NET_TTL {
        acts := cached[key].1;
      } else if fetched.Some? {
        acts := fetched.value;
        cached := cached[key := (now, acts)];
      } else if key in cached {
        acts := cached[key].1;
      }
      var ids := JournaledIds(tables, books, unreadable);
      booked := ids;
      net := 0.0;
      for i := 0 to |acts|
        invariant net == NetOf(acts[..i], ids)
      {
        assert acts[..i + 1][..i] == acts[..i];
        if acts[i].id !in ids {
          net := net + acts[i].net;
        }
      }
      assert acts[..|acts|] == acts;
      if unreadable == {} && NoneVoided(tables) && Shaped(list) {
        NetOfIsFeeNet(list, tables, books, booked);
      }
    }
  }

  // ----- an old fee list -----

  /** The parity the audit sees when its fee list ends after the first n fees. */
  ghost function ParityWith(s: Account, n: nat): real
    requires s.initial.Keys == s.tables.Keys && n <= |s.fees|
  {
    s.brokerCash - (Total(Balances(s.initial, s.tables)) + FeeNet(s.fees[..n], s.tables))
  }

  lemma {:induction false} FeeNetSplits(fees: seq<Fee>, n: nat, tables: Tables)
    requires n <= |fees|
    ensures FeeNet(fees, tables) == FeeNet(fees[..n], tables) + FeeNet(fees[n..], tables)
    decreases |fees|
  {
    if n < |fees| {
      var init := fees[..|fees| - 1];
      FeeNetSplits(init, n, tables);
      assert init[..n] == fees[..n];
      assert fees[n..][..|fees| - n - 1] == init[n..];
    } else {
      assert fees[..n] == fees;
    }
  }

  lemma {:induction false} BookedFeesAddNothing(fees: seq<Fee>, tables: Tables)
    requires forall i :: 0 <= i < |fees| ==> Journaled(tables, fees[i].id)
    ensures FeeNet(fees, tables) == 0.0
  {
    if fees != [] {
      BookedFeesAddNothing(fees[..|fees| - 1], tables);
    }
  }

  /** A stale list moves the parity by just the fees it misses that no book has booked; booked ones do not matter. */
  lemma StaleListMissesUnbooked(s: Account, n: nat)
    requires s.initial.Keys == s.tables.Keys && n <= |s.fees|
    ensures ParityWith(s, n) == Parity(s) + FeeNet(s.fees[n..], s.tables)
    ensures (forall i :: n <= i < |s.fees| ==> Journaled(s.tables, s.fees[i].id)) ==> ParityWith(s, n) == Parity(s)
  {
    FeeNetSplits(s.fees, n, s.tables);
    if forall i :: n <= i < |s.fees| ==> Journaled(s.tables, s.fees[i].id) {
      forall i | 0 <= i < |s.fees[n..]| ensures Journaled(s.tables, s.fees[n..][i].id) {
        assert s.fees[n..][i] == s.fees[n + i];
      }
      BookedFeesAddNothing(s.fees[n..], s.tables);
    }
  }
}

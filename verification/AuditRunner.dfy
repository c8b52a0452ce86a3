/**
 audit_runner.py: the table of drift signatures and the first-detection alerts. Instants are integers, the
 serialized details a string.
 */
module AuditRunner {
  import opened Money

  datatype Item = Item(auditType: string, signature: string, details: string)

  /** One row of audit_alerts. */
  datatype Alert = Alert(auditType: string, firstSeen: int, lastSeen: int, resolvedAt: Option<int>,
                         details: string, sent: bool)

  type Table = map<string, Alert>

  /** One run: the drift items, the clock, whether the notification went out and whether marking it succeeded. */
  datatype Pass = Pass(items: seq<Item>, now: int, delivered: bool, marked: bool)

  // ----- the items of a run by signature -----

  function Current(items: seq<Item>): set<string> {
    set it | it in items :: it.signature
  }

  /** `current_by_sig[sig]`: the last item with the signature. */
  function Last(items: seq<Item>, sig: string): Option<Item> {
    if items == [] then None
    else if items[|items| - 1].signature == sig then Some(items[|items| - 1])
    else Last(items[..|items| - 1], sig)
  }

  lemma {:induction false} LastIff(items: seq<Item>, sig: string)
    ensures Last(items, sig).Some? <==> sig in Current(items)
    ensures Last(items, sig).Some? ==> Last(items, sig).value.signature == sig && Last(items, sig).value in items
  {
    if items != [] {
      var init, last := items[..|items| - 1], items[|items| - 1];
      LastIff(init, sig);
      assert items == init + [last];
      assert last in items;
    }
  }

  predicate Open(a: Option<Alert>) {
    a.Some? && a.value.resolvedAt.None?
  }

  /** First seen, or seen again after it was resolved. */
  predicate IsNew(a: Option<Alert>, it: Option<Item>) {
    it.Some? && !Open(a)
  }

  predicate IsResolved(a: Option<Alert>, it: Option<Item>) {
    it.None? && Open(a)
  }

  function NewAlert(it: Item, now: int): Alert {
    Alert(it.auditType, now, now, None, it.details, false)
  }

  /** The row of one signature after the table update of a run. */
  function Upserted(a: Option<Alert>, it: Option<Item>, now: int): Option<Alert> {
    match it
    case None => if Open(a) then Some(a.value.(resolvedAt := Some(now))) else a
    case Some(i) =>
      if a.None? then Some(NewAlert(i, now))
      else if Open(a) then Some(a.value.(lastSeen := now))
      else Some(a.value.(lastSeen := now, resolvedAt := None, details := i.details))
  }

  /** … and after the alert of the run. */
  function Next(a: Option<Alert>, it: Option<Item>, p: Pass): Option<Alert> {
    var u := Upserted(a, it, p.now);
    if IsNew(a, it) && p.delivered && p.marked then Some(u.value.(sent := true)) else u
  }

  function Row(t: Table, sig: string): Option<Alert> {
    if sig in t then Some(t[sig]) else None
  }

  function OpenSet(t: Table): set<string> {
    set sig | sig in t && Open(Row(t, sig))
  }

  function After(t: Table, p: Pass): Table {
    map sig | sig in t.Keys + Current(p.items) :: NextRow(t, p, sig)
  }

  function NextRow(t: Table, p: Pass, sig: string): Alert
    requires sig in t.Keys + Current(p.items)
  {
    LastIff(p.items, sig);
    Next(Row(t, sig), Last(p.items, sig), p).value
  }

  /** A run acts on each signature alone. */
  lemma AfterRow(t: Table, p: Pass, sig: string)
    ensures Row(After(t, p), sig) == Next(Row(t, sig), Last(p.items, sig), p)
  {
    LastIff(p.items, sig);
  }

  /** The table after a sequence of runs. */
  function Run(t: Table, ps: seq<Pass>): Table {
    if ps == [] then t else After(Run(t, ps[..|ps| - 1]), ps[|ps| - 1])
  }

  /** The row of one signature after the first n runs. */
  function RowAfter(t: Table, ps: seq<Pass>, n: nat, sig: string): Option<Alert>
    requires n <= |ps|
  {
    if n == 0 then Row(t, sig) else Next(RowAfter(t, ps, n - 1, sig), Last(ps[n - 1].items, sig), ps[n - 1])
  }

  function NewSet(t: Table, p: Pass): set<string> {
    set sig | sig in Current(p.items) && IsNew(Row(t, sig), Last(p.items, sig))
  }

  function ResolvedSet(t: Table, p: Pass): set<string> {
    set sig | sig in t && IsResolved(Row(t, sig), Last(p.items, sig))
  }

  // ----- one signature's turn in the loops -----

  /** The rows of these signatures are upserted, all others as before. */
  ghost predicate RowsFor(rows: Table, before: Table, sigs: seq<string>, bySig: map<string, Item>, now: int)
    requires forall sig :: sig in sigs ==> sig in bySig
  {
    forall sig :: Row(rows, sig)
               == if sig in sigs then Upserted(Row(before, sig), Some(bySig[sig]), now) else Row(before, sig)
  }

  lemma RowsForStep(rows: Table, before: Table, sigs: seq<string>, s: string, bySig: map<string, Item>, now: int,
                    row: Alert)
    requires (forall sig :: sig in sigs ==> sig in bySig) && s in bySig && s !in sigs
    requires RowsFor(rows, before, sigs, bySig, now) && Some(row) == Upserted(Row(before, s), Some(bySig[s]), now)
    ensures RowsFor(rows[s := row], before, sigs + [s], bySig, now)
  {
    forall sig
      ensures Row(rows[s := row], sig)
           == if sig in sigs + [s] then Upserted(Row(before, sig), Some(bySig[sig]), now) else Row(before, sig)
    {
      if sig != s {
        assert Row(rows[s := row], sig) == Row(rows, sig);
      }
    }
  }

  /** The new items are those of these signatures that were not open, once each. */
  ghost predicate NewFor(items: seq<Item>, before: Table, sigs: seq<string>, bySig: map<string, Item>)
    requires forall sig :: sig in sigs ==> sig in bySig
  {
    && (forall it :: it in items <==> it.signature in sigs && bySig[it.signature] == it
                                      && IsNew(Row(before, it.signature), Some(it)))
    && (forall i, j :: 0 <= i < j < |items| ==> items[i].signature != items[j].signature)
  }

  lemma NewForStep(items: seq<Item>, before: Table, sigs: seq<string>, s: string, bySig: map<string, Item>)
    requires (forall sig :: sig in sigs ==> sig in bySig) && s in bySig && s !in sigs && bySig[s].signature == s
    requires NewFor(items, before, sigs, bySig)
    ensures NewFor(if Open(Row(before, s)) then items else items + [bySig[s]], before, sigs + [s], bySig)
  {
    forall i | 0 <= i < |items| ensures items[i].signature != s {
      assert items[i] in items;
    }
  }

  /** Open before the run and not shown by it. */
  predicate Gone(known: Table, bySig: map<string, Item>, sig: string) {
    sig in known && sig !in bySig && Open(Row(known, sig))
  }

  /** The signatures no longer to do that are gone are resolved, all other rows as before. */
  ghost predicate ResolvedFor(rows: Table, before: Table, known: Table, bySig: map<string, Item>, todo: set<string>,
                              now: int)
  {
    forall sig :: Row(rows, sig) == if sig !in todo && Gone(known, bySig, sig) then Upserted(Row(known, sig), None, now)
                                    else Row(before, sig)
  }

  lemma ResolvedForStep(rows: Table, before: Table, known: Table, bySig: map<string, Item>, todo: set<string>,
                        s: string,
                        now: int)
    requires ResolvedFor(rows, before, known, bySig, todo, now) && s in todo && s in known
    requires s !in bySig ==> Row(before, s) == Row(known, s)
    ensures !Gone(known, bySig, s) ==> ResolvedFor(rows, before, known, bySig, todo - {s}, now)
    ensures Gone(known, bySig, s) ==>
              && s in rows
              && ResolvedFor(rows[s := rows[s].(resolvedAt := Some(now))], before, known, bySig, todo - {s}, now)
  {
    assert Row(rows, s) == Row(before, s);
    if Gone(known, bySig, s) {
      var after := rows[s := rows[s].(resolvedAt := Some(now))];
      forall sig
        ensures Row(after, sig) == if sig !in todo - {s} && Gone(known, bySig, sig)
                                   then Upserted(Row(known, sig), None, now) else Row(before, sig)
      {
        if sig != s {
          assert Row(after, sig) == Row(rows, sig);
        }
      }
    }
  }

  // ----- the table as an object -----

  class Alerts {
    var rows: Table

    /** `current_by_sig = {it["signature"]: it for it in items}`, as its keys in insertion order and its values. */
    static method BySignature(items: seq<Item>) returns (keys: seq<string>, bySig: map<string, Item>)
      ensures forall i, j :: 0 <= i < j < |keys| ==> keys[i] != keys[j]
      ensures forall sig :: sig in keys <==> sig in bySig
      ensures forall sig :: Last(items, sig) == if sig in bySig then Some(bySig[sig]) else None
    {
      keys, bySig := [], map[];
      for i := 0 to |items|
        invariant forall j, k :: 0 <= j < k < |keys| ==> keys[j] != keys[k]
        invariant forall sig :: sig in keys <==> sig in bySig
        invariant forall sig :: Last(items[..i], sig) == if sig in bySig then Some(bySig[sig]) else None
      {
        assert items[..i + 1][..i] == items[..i];
        if items[i].signature !in bySig {
          keys := keys + [items[i].signature];
        }
        bySig := bySig[items[i].signature := items[i]];
      }
      assert items[..|items|] == items;
    }

    /** The loop that inserts, reopens or bumps the signatures of the run. */
    method Upsert(keys: seq<string>, bySig: map<string, Item>, now: int) returns (newItems: seq<Item>)
      requires forall i, j :: 0 <= i < j < |keys| ==> keys[i] != keys[j]
      requires forall sig :: sig in keys <==> sig in bySig
      requires forall sig :: sig in bySig ==> bySig[sig].signature == sig
      modifies this
      ensures forall sig :: Row(rows, sig) ==
                              if sig in bySig then Upserted(old(Row(rows, sig)), Some(bySig[sig]), now)
                              else old(Row(rows, sig))
      ensures forall it :: it in newItems <==> it.signature in bySig && bySig[it.signature] == it
                                               && IsNew(old(Row(rows, it.signature)), Some(it))
      ensures forall i, j :: 0 <= i < j < |newItems| ==> newItems[i].signature != newItems[j].signature
    {
      newItems := [];
      ghost var before := rows;
      for i := 0 to |keys|
        invariant RowsFor(rows, before, keys[..i], bySig, now)
        invariant NewFor(newItems, before, keys[..i], bySig)
      {
        var sig := keys[i];
        assert keys[..i + 1] == keys[..i] + [sig] && sig !in keys[..i] && sig in bySig;
        assert Row(rows, sig) == Row(before, sig);
        NewForStep(newItems, before, keys[..i], sig, bySig);
        var it, row := bySig[sig], NewAlert(bySig[sig], now);
        if sig !in rows {
          newItems := newItems + [it];
        } else if rows[sig].resolvedAt.Some? {
          newItems := newItems + [it];
          row := rows[sig].(lastSeen := now, resolvedAt := None, details := it.details);
        } else {
          row := rows[sig].(lastSeen := now);
        }
        RowsForStep(rows, before, keys[..i], sig, bySig, now, row);
        rows := rows[sig := row];
      }
      assert keys[..|keys|] == keys;
    }

    /** The loop over the signatures known before the run. */
    method Resolve(known: Table, bySig: map<string, Item>, now: int) returns (resolved: seq<string>)
      requires forall sig :: sig in known && sig !in bySig ==> Row(rows, sig) == Row(known, sig)
      modifies this
      ensures forall sig :: Row(rows, sig) == if Gone(known, bySig, sig)
                                              then Upserted(Row(known, sig), None, now) else old(Row(rows, sig))
      ensures forall sig :: sig in resolved <==> Gone(known, bySig, sig)
      ensures forall i, j :: 0 <= i < j < |resolved| ==> resolved[i] != resolved[j]
    {
      resolved := [];
      var todo := known.Keys;
      ghost var before := rows;
      while todo != {}
        invariant todo <= known.Keys
        invariant ResolvedFor(rows, before, known, bySig, todo, now)
        invariant forall sig :: sig in resolved <==> sig !in todo && Gone(known, bySig, sig)
        invariant forall i, j :: 0 <= i < j < |resolved| ==> resolved[i] != resolved[j]
        decreases todo
      {
        var sig :| sig in todo;
        assert Row(rows, sig) == Row(before, sig);
        ResolvedForStep(rows, before, known, bySig, todo, sig, now);
        todo := todo - {sig};
        if sig !in bySig && known[sig].resolvedAt.None? {
          assert Row(rows, sig) == Row(known, sig);
          resolved := resolved + [sig];
          rows := rows[sig := rows[sig].(resolvedAt := Some(now))];
        }
      }
    }

    /** Marking the alerted rows after a successful send. */
    method Mark(newItems: seq<Item>)
      requires forall i :: 0 <= i < |newItems| ==> newItems[i].signature in rows
      modifies this
      ensures forall sig :: Row(rows, sig) ==
                              if exists it :: it in newItems && it.signature == sig
                              then Some(old(rows)[sig].(sent := true)) else old(Row(rows, sig))
    {
      for i := 0 to |newItems|
        invariant rows.Keys == old(rows).Keys
        invariant forall sig :: sig in rows ==>
                                  rows[sig] == if sig in Current(newItems[..i]) then old(rows)[sig].(sent := true)
                                               else old(rows)[sig]
      {
        var sig := newItems[i].signature;
        assert newItems[..i + 1] == newItems[..i] + [newItems[i]];
        assert Current(newItems[..i + 1]) == Current(newItems[..i]) + {sig};
        rows := rows[sig := rows[sig].(sent := true)];
      }
      assert newItems[..|newItems|] == newItems;
      forall sig ensures sig in Current(newItems) <==> exists it :: it in newItems && it.signature == sig {
      }
    }

    /** detect_and_alert_new_drift */
    method Detect(p: Pass) returns (newItems: seq<Item>, resolved: seq<string>)
      modifies this
      ensures forall sig :: Row(rows, sig) == Row(After(old(rows), p), sig)
      ensures forall it :: it in newItems <==> it.signature in NewSet(old(rows), p)
                                               && Last(p.items, it.signature) == Some(it)
      ensures forall sig :: sig in resolved <==> sig in ResolvedSet(old(rows), p)
    {
      var known := rows;
      var keys, bySig := BySignature(p.items);
      forall sig | sig in bySig ensures bySig[sig].signature == sig && sig in Current(p.items) {
        LastIff(p.items, sig);
      }
      newItems := Upsert(keys, bySig, p.now);
      forall sig | sig in known && sig !in bySig ensures Row(rows, sig) == Row(known, sig) {
        assert Row(rows, sig) == old(Row(rows, sig));
      }
      resolved := Resolve(known, bySig, p.now);
      assert forall sig :: Row(rows, sig) == Upserted(Row(known, sig), Last(p.items, sig), p.now);
      forall sig ensures Row(After(known, p), sig) == Next(Row(known, sig), Last(p.items, sig), p) {
        AfterRow(known, p, sig);
      }
      if p.delivered && p.marked {
        assert forall i :: 0 <= i < |newItems| ==> newItems[i] in newItems && newItems[i].signature in bySig;
        Mark(newItems);
        forall sig ensures Row(rows, sig) == Next(Row(known, sig), Last(p.items, sig), p) {
          if IsNew(Row(known, sig), Last(p.items, sig)) {
            assert bySig[sig] in newItems;
          }
        }
      }
    }
  }

  // ----- alerts are exactly the rising edges -----

  /** After a run the unresolved signatures are exactly the run's drift signatures. */
  lemma OpenIsCurrent(t: Table, p: Pass)
    ensures OpenSet(After(t, p)) == Current(p.items)
  {
    forall sig ensures sig in OpenSet(After(t, p)) <==> sig in Current(p.items) {
      LastIff(p.items, sig);
      AfterRow(t, p, sig);
    }
  }

  /** New are the signatures of the run that were not open, resolved the open ones the run no longer shows. */
  lemma EdgesAreDifferences(t: Table, p: Pass)
    ensures NewSet(t, p) == Current(p.items) - OpenSet(t)
    ensures ResolvedSet(t, p) == OpenSet(t) - Current(p.items)
  {
    forall sig ensures Last(p.items, sig).Some? <==> sig in Current(p.items) {
      LastIff(p.items, sig);
    }
  }

  function NewCount(t: Table, ps: seq<Pass>): nat {
    if ps == [] then 0
    else NewCount(t, ps[..|ps| - 1]) + |NewSet(Run(t, ps[..|ps| - 1]), ps[|ps| - 1])|
  }

  function ResolvedCount(t: Table, ps: seq<Pass>): nat {
    if ps == [] then 0
    else ResolvedCount(t, ps[..|ps| - 1]) + |ResolvedSet(Run(t, ps[..|ps| - 1]), ps[|ps| - 1])|
  }

  lemma DifferenceSizes<T>(a: set<T>, b: set<T>)
    ensures |a - b| - |b - a| == |a| - |b|
  {
    assert a == (a - b) + (a * b);
    assert b == (b - a) + (a * b);
  }

  lemma StepBalance(t: Table, p: Pass)
    ensures |NewSet(t, p)| - |ResolvedSet(t, p)| == |OpenSet(After(t, p))| - |OpenSet(t)|
  {
    EdgesAreDifferences(t, p);
    OpenIsCurrent(t, p);
    DifferenceSizes(Current(p.items), OpenSet(t));
  }

  /** Over any sequence of runs, new minus resolved is the change in the number of open signatures. */
  lemma {:induction false} EdgesBalance(t: Table, ps: seq<Pass>)
    ensures NewCount(t, ps) - ResolvedCount(t, ps) == |OpenSet(Run(t, ps))| - |OpenSet(t)|
  {
    if ps != [] {
      EdgesBalance(t, ps[..|ps| - 1]);
      StepBalance(Run(t, ps[..|ps| - 1]), ps[|ps| - 1]);
    }
  }

  /** The table after n runs holds each signature's row after n runs. */
  lemma {:induction false} RunRow(t: Table, ps: seq<Pass>, n: nat, sig: string)
    requires n <= |ps|
    ensures Row(Run(t, ps[..n]), sig) == RowAfter(t, ps, n, sig)
  {
    if n > 0 {
      RunRow(t, ps, n - 1, sig);
      assert ps[..n][..n - 1] == ps[..n - 1];
      AfterRow(Run(t, ps[..n - 1]), ps[n - 1], sig);
    }
  }

  /** Is the signature alerted in run i? */
  predicate Alerted(t: Table, ps: seq<Pass>, i: nat, sig: string)
    requires i < |ps|
  {
    IsNew(RowAfter(t, ps, i, sig), Last(ps[i].items, sig))
  }

  /** The signatures that a run over the table alerts are the alerted ones. */
  lemma AlertedIsNew(t: Table, ps: seq<Pass>, i: nat, sig: string)
    requires i < |ps|
    ensures Alerted(t, ps, i, sig) <==> sig in NewSet(Run(t, ps[..i]), ps[i])
  {
    RunRow(t, ps, i, sig);
    LastIff(ps[i].items, sig);
  }

  lemma OpenAfterRun(t: Table, ps: seq<Pass>, i: nat, sig: string)
    requires i < |ps|
    ensures Open(RowAfter(t, ps, i + 1, sig)) <==> sig in Current(ps[i].items)
  {
    LastIff(ps[i].items, sig);
  }

  /** A signature is among a run's new items exactly when the run shows it and the run before did not. */
  lemma AlertedIffRisingEdge(t: Table, ps: seq<Pass>, i: nat, sig: string)
    requires i < |ps|
    ensures Alerted(t, ps, i, sig)
       <==> sig in Current(ps[i].items)
            && (if i == 0 then sig !in OpenSet(t) else sig !in Current(ps[i - 1].items))
    ensures Alerted(t, ps, i, sig) <==> sig in NewSet(Run(t, ps[..i]), ps[i])
  {
    AlertedIsNew(t, ps, i, sig);
    LastIff(ps[i].items, sig);
    if i > 0 {
      OpenAfterRun(t, ps, i - 1, sig);
    }
  }

  /** Two notifications for one signature are separated by a run that does not show it. */
  lemma NotificationsAreSeparated(t: Table, ps: seq<Pass>, i: nat, j: nat, sig: string) returns (k: nat)
    requires i < j < |ps| && Alerted(t, ps, i, sig) && Alerted(t, ps, j, sig)
    ensures i < k < j && sig !in Current(ps[k].items)
  {
    AlertedIffRisingEdge(t, ps, i, sig);
    AlertedIffRisingEdge(t, ps, j, sig);
    k := j - 1;
  }

  // ----- one row over the runs -----

  /** The same first detection and type, and no sent mark lost. */
  predicate Carries(a: Option<Alert>, b: Option<Alert>) {
    a.Some? ==>
      && b.Some? && b.value.firstSeen == a.value.firstSeen && b.value.auditType == a.value.auditType
      && (a.value.sent ==> b.value.sent)
  }

  predicate IsSent(a: Option<Alert>) {
    a.Some? && a.value.sent
  }

  /** A row is never lost, its first detection never moves and a delivered alert stays delivered. */
  lemma {:induction false} RowsPersist(t: Table, ps: seq<Pass>, n: nat, sig: string)
    requires n <= |ps|
    ensures Carries(Row(t, sig), RowAfter(t, ps, n, sig))
  {
    if n > 0 {
      RowsPersist(t, ps, n - 1, sig);
    }
  }

  /** A row is marked as sent only by a run that alerted it, delivered the alert and marked it. */
  lemma {:induction false} SentMeansDelivered(t: Table, ps: seq<Pass>, n: nat, sig: string) returns (i: nat)
    requires n <= |ps| && !IsSent(Row(t, sig)) && IsSent(RowAfter(t, ps, n, sig))
    ensures i < n && Alerted(t, ps, i, sig) && ps[i].delivered && ps[i].marked
    decreases n
  {
    i := n - 1;
    if IsSent(RowAfter(t, ps, n - 1, sig)) {
      i := SentMeansDelivered(t, ps, n - 1, sig);
    }
  }

  /** An alert that could not be delivered is not sent again while its drift lasts. */
  lemma {:induction false} FailedAlertIsNotRetried(t: Table, ps: seq<Pass>, i: nat, j: nat, sig: string)
    requires i <= j < |ps| && (forall k :: i <= k <= j ==> sig in Current(ps[k].items))
    ensures Open(RowAfter(t, ps, j + 1, sig))
    ensures IsSent(RowAfter(t, ps, j + 1, sig)) == IsSent(RowAfter(t, ps, i + 1, sig))
    ensures i < j ==> !Alerted(t, ps, j, sig)
    decreases j
  {
    OpenAfterRun(t, ps, j, sig);
    if i < j {
      FailedAlertIsNotRetried(t, ps, i, j - 1, sig);
    }
  }

  // ----- what a row says about the runs -----

  ghost predicate Shows(ps: seq<Pass>, i: nat, sig: string)
    requires i < |ps|
  {
    exists k :: 0 <= k < |ps[i].items| && ps[i].items[k].signature == sig
  }

  lemma ShowsIff(ps: seq<Pass>, i: nat, sig: string)
    requires i < |ps|
    ensures Shows(ps, i, sig) <==> Last(ps[i].items, sig).Some?
  {
    LastIff(ps[i].items, sig);
    if sig in Current(ps[i].items) {
      var it := Last(ps[i].items, sig).value;
      assert it in ps[i].items;
    }
  }

  /**
   After n runs of which run i is the last to show a signature, its row was last seen by run i, and it is resolved by
   the next run, if there was one.
   */
  lemma {:induction false} RowDates(t: Table, ps: seq<Pass>, n: nat, sig: string, i: nat)
    requires i < n <= |ps| && Shows(ps, i, sig) && forall k :: i < k < n ==> !Shows(ps, k, sig)
    ensures var row := RowAfter(t, ps, n, sig);
            row.Some? && row.value.lastSeen == ps[i].now
            && row.value.resolvedAt == if i + 1 == n then None else Some(ps[i + 1].now)
  {
    ShowsIff(ps, n - 1, sig);
    if i + 1 < n {
      RowDates(t, ps, n - 1, sig, i);
    }
  }

  lemma {:induction false} NotYetSeen(t: Table, ps: seq<Pass>, n: nat, sig: string)
    requires n <= |ps| && sig !in t && forall k :: 0 <= k < n ==> !Shows(ps, k, sig)
    ensures RowAfter(t, ps, n, sig).None?
  {
    if n > 0 {
      ShowsIff(ps, n - 1, sig);
      NotYetSeen(t, ps, n - 1, sig);
    }
  }

  /** A new signature's row is first seen by the first run that shows it, under the type of its item. */
  lemma FirstSeenIsFirst(t: Table, ps: seq<Pass>, n: nat, sig: string, i: nat) returns (it: Item)
    requires i < n <= |ps| && sig !in t && Shows(ps, i, sig) && forall k :: 0 <= k < i ==> !Shows(ps, k, sig)
    ensures it in ps[i].items && it.signature == sig
    ensures var row := RowAfter(t, ps, n, sig);
            row.Some? && row.value.firstSeen == ps[i].now && row.value.auditType == it.auditType
  {
    NotYetSeen(t, ps, i, sig);
    ShowsIff(ps, i, sig);
    LastIff(ps[i].items, sig);
    it := Last(ps[i].items, sig).value;
    RowIsKept(t, ps, i + 1, n, sig);
  }

  lemma {:induction false} RowIsKept(t: Table, ps: seq<Pass>, m: nat, n: nat, sig: string)
    requires m <= n <= |ps|
    ensures Carries(RowAfter(t, ps, m, sig), RowAfter(t, ps, n, sig))
    decreases n
  {
    if m < n {
      RowIsKept(t, ps, m, n - 1, sig);
    }
  }

  /** An alert that was delivered and marked leaves its row marked for good: the other half of `SentMeansDelivered`. */
  lemma DeliveredIsSent(t: Table, ps: seq<Pass>, i: nat, n: nat, sig: string)
    requires i < n <= |ps| && Alerted(t, ps, i, sig) && ps[i].delivered && ps[i].marked
    ensures IsSent(RowAfter(t, ps, n, sig))
  {
    RowIsKept(t, ps, i + 1, n, sig);
  }

  /** While a drift lasts its row keeps the details of the run that raised it. */
  lemma {:induction false} DetailsAreOfEdge(t: Table, ps: seq<Pass>, i: nat, n: nat, sig: string)
    requires i < n <= |ps| && Alerted(t, ps, i, sig) && forall k :: i <= k < n ==> Shows(ps, k, sig)
    ensures var row := RowAfter(t, ps, n, sig);
            Open(row) && row.value.details == Last(ps[i].items, sig).value.details
    decreases n
  {
    ShowsIff(ps, n - 1, sig);
    if i + 1 < n {
      DetailsAreOfEdge(t, ps, i, n - 1, sig);
    }
  }
}

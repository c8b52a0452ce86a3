/**
 activities_capture.py: one profile's whole capture pass among its sibling books, with every share worked out in the
 pass. What any interleaving of such passes books for a stock event is the subject of `StockEvents`.
 */
module AccountPass {
  import opened Accounts
  import opened Journal
  import opened Writers
  import opened FeeCapture
  import CP = CapturePass
  import LR = LargestRemainder

  // ----- one pass -----

  /** A typed activity as the pass fetches it; a fee comes with what the pass could read. */
  datatype Typed = Plain(event: Event) | Fees(fee: Fee, env: Env)

  /** What the activity means for the own book, worked out from the journals as they are now. */
  ghost function Resolve(own: int, order: seq<int>, tables: Tables, a: Typed): Event {
    match a
    case Plain(e) => e
    case Fees(fee, env) => FeeShare(fee.id, fee.net, Due(own, order, tables, fee, env))
  }

  ghost function Visit(own: int, order: seq<int>, tables: Tables, a: Typed): (r: Tables)
    requires own in tables
    ensures r.Keys == tables.Keys
  {
    tables[own := Step(own, tables[own], Resolve(own, order, tables, a))]
  }

  ghost function Visits(own: int, order: seq<int>, tables: Tables, typed: seq<Typed>): (r: Tables)
    requires own in tables
    ensures r.Keys == tables.Keys
  {
    if typed == [] then tables
    else Visit(own, order, Visits(own, order, tables, typed[..|typed| - 1]), typed[|typed| - 1])
  }

  /** The events the typed activities of a pass turn into, one after the other. */
  ghost function Events(own: int, order: seq<int>, tables: Tables, typed: seq<Typed>): seq<Event>
    requires own in tables
  {
    if typed == [] then []
    else
      var init := typed[..|typed| - 1];
      Events(own, order, tables, init) + [Resolve(own, order, Visits(own, order, tables, init), typed[|typed| - 1])]
  }

  /** A pass over the account is a run over the own book, so all that holds of runs holds of passes. */
  lemma {:induction false} VisitsAreRun(own: int, order: seq<int>, tables: Tables, typed: seq<Typed>)
    requires own in tables
    ensures Visits(own, order, tables, typed)
         == tables[own := Run(own, tables[own], Events(own, order, tables, typed))]
  {
    if typed == [] {
      assert tables[own := tables[own]] == tables;
    } else {
      var init := typed[..|typed| - 1];
      VisitsAreRun(own, order, tables, init);
      var before := Events(own, order, tables, init);
      var e := Resolve(own, order, Visits(own, order, tables, init), typed[|typed| - 1]);
      assert (before + [e])[..|before|] == before;
    }
  }

  ghost predicate TypedRead(order: seq<int>, a: Typed) {
    a.Plain? ==> CP.SiblingsRead(order, a.event)
  }

  method WriteTyped(own: int, order: seq<int>, books: map<int, Book>, a: Typed) returns (booked: bool)
    requires LR.Distinct(order) && LR.Elements(order) == books.Keys && own in books && TypedRead(order, a)
    requires forall p, q :: p in books && q in books && p != q ==> books[p] != books[q]
    modifies books[own]
    ensures TablesOf(books) == Visit(own, order, old(TablesOf(books)), a)
    ensures |books[own].rows| == |old(books[own].rows)| + if booked then 1 else 0
  {
    ghost var before := TablesOf(books);
    match a {
      case Plain(e) => booked := CP.Write(own, order, books[own], e);
      case Fees(fee, env) =>
        StepDrift(own, books[own].rows, Resolve(own, order, before, a));
        booked := WriteFee(own, order, books, fee, env);
    }
    TablesAre(before, TablesOf(books), own, Step(own, before[own], Resolve(own, order, before, a)));
  }

  /** The typed activities of one pass over the own book; no sibling's book changes. */
  method CaptureTyped(own: int, order: seq<int>, books: map<int, Book>, typed: seq<Typed>) returns (written: int)
    requires LR.Distinct(order) && LR.Elements(order) == books.Keys && own in books
    requires forall p, q :: p in books && q in books && p != q ==> books[p] != books[q]
    requires forall i :: 0 <= i < |typed| ==> TypedRead(order, typed[i])
    modifies books[own]
    ensures TablesOf(books) == Visits(own, order, old(TablesOf(books)), typed)
    ensures written == |books[own].rows| - |old(books[own].rows)|
  {
    written := 0;
    for i := 0 to |typed|
      invariant TablesOf(books) == Visits(own, order, old(TablesOf(books)), typed[..i])
      invariant written == |books[own].rows| - |old(books[own].rows)|
    {
      assert typed[..i + 1][..i] == typed[..i];
      var booked := WriteTyped(own, order, books, typed[i]);
      written := written + if booked then 1 else 0;
    }
    assert typed[..|typed|] == typed;
  }

  /** `capture_activities_for_profile`: the typed activities, then the MISC rows. */
  method Capture(own: int, order: seq<int>, books: map<int, Book>, typed: seq<Typed>, misc: seq<CP.Misc>)
    returns (written: int)
    requires LR.Distinct(order) && LR.Elements(order) == books.Keys && own in books
    requires forall p, q :: p in books && q in books && p != q ==> books[p] != books[q]
    requires forall i :: 0 <= i < |typed| ==> TypedRead(order, typed[i])
    modifies books[own]
    ensures books[own].rows
         == Run(own, old(books[own].rows),
                Events(own, order, old(TablesOf(books)), typed) + CP.MiscEvents(misc, CP.Groups(misc)))
    ensures forall p :: p in books && p != own ==> books[p].rows == old(books[p].rows)
    ensures written == |books[own].rows| - |old(books[own].rows)|
  {
    ghost var before := TablesOf(books);
    written := CaptureTyped(own, order, books, typed);
    VisitsAreRun(own, order, before, typed);
    assert TablesOf(books)[own] == Run(own, before[own], Events(own, order, before, typed));
    var groups := CP.GroupsOf(misc);
    CP.RunConcat(own, before[own], Events(own, order, before, typed), CP.MiscEvents(misc, groups));
    var n := CP.BookMisc(own, books[own], misc, groups);
    written := written + n;
  }
}

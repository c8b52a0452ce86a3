/**
 The bridge between the fee protocol and the audit: the drift that the cash-parity audit computes over the journals of
 a reachable account is the account's parity up to the audit's own roundings, so completed bookings cannot tip it.
 */
module ParityAudit {
  import opened Money
  import opened Sums
  import FP = FeeProtocol
  import CA = CashParity
  import LR = LargestRemainder

  /** The audit's views of the account's journals, in the order the profiles are listed. */
  ghost predicate Views(order: seq<int>, s: FP.Account, books: seq<CA.BookView>)
    requires s.initial.Keys == s.tables.Keys
  {
    && |books| == |order| && LR.Elements(order) <= s.tables.Keys
    && forall i :: 0 <= i < |order| ==> ViewOf(s, order[i], books[i])
  }

  ghost predicate ViewOf(s: FP.Account, p: int, b: CA.BookView)
    requires s.initial.Keys == s.tables.Keys
  {
    p in s.tables && b.reading.Full? && b.initial == s.initial[p] && CA.Rows(b.table) == s.tables[p]
  }

  lemma ViewsPrefix(order: seq<int>, s: FP.Account, books: seq<CA.BookView>)
    requires s.initial.Keys == s.tables.Keys && order != [] && Views(order, s, books)
    ensures Views(order[..|order| - 1], s, books[..|books| - 1])
  {
    assert LR.Elements(order[..|order| - 1]) <= LR.Elements(order);
  }

  lemma LastElement(order: seq<int>)
    requires order != [] && LR.Distinct(order)
    ensures order[|order| - 1] !in LR.Elements(order[..|order| - 1])
    ensures LR.Elements(order) == LR.Elements(order[..|order| - 1]) + {order[|order| - 1]}
    ensures LR.Distinct(order[..|order| - 1])
  {
    var init, last := order[..|order| - 1], order[|order| - 1];
    assert order == init + [last];
  }

  /** The summed journal cash is the sum of the balances within half a cent per book. */
  lemma {:induction false} JournalCashIsBalances(order: seq<int>, s: FP.Account, books: seq<CA.BookView>)
    requires s.initial.Keys == s.tables.Keys && LR.Distinct(order) && Views(order, s, books)
    ensures Within(CA.JournalCash(books) - Sum(LR.Elements(order), FP.Balances(s.initial, s.tables)), |order|)
  {
    var balances := FP.Balances(s.initial, s.tables);
    if order == [] {
      assert LR.Elements(order) == {};
    } else {
      var init, p := order[..|order| - 1], order[|order| - 1];
      ViewsPrefix(order, s, books);
      LastElement(order);
      JournalCashIsBalances(init, s, books[..|books| - 1]);
      SumAdd(LR.Elements(init), balances, p);
      assert ViewOf(s, p, books[|books| - 1]);
      WithinAdd(CA.JournalCash(books[..|books| - 1]) - Sum(LR.Elements(init), balances), |init|,
                CA.BookCash(books[|books| - 1]) - balances[p], 1);
    }
  }

  lemma DriftRoundings(cash: real, journal: real, feeNet: real)
    ensures Within(CA.Drift(cash, journal, feeNet) - (cash - journal - feeNet), 3)
  {
  }

  /** The audit's drift is the parity, within half a cent per book and three roundings. */
  lemma DriftIsParity(order: seq<int>, s: FP.Account, books: seq<CA.BookView>)
    requires s.initial.Keys == s.tables.Keys == LR.Elements(order) && LR.Distinct(order) && Views(order, s, books)
    ensures Within(CA.Drift(s.brokerCash, CA.JournalCash(books), FP.FeeNet(s.fees, s.tables)) - FP.Parity(s),
                   |order| + 3)
  {
    var balances := FP.Balances(s.initial, s.tables);
    var journal, feeNet := CA.JournalCash(books), FP.FeeNet(s.fees, s.tables);
    JournalCashIsBalances(order, s, books);
    DriftRoundings(s.brokerCash, journal, feeNet);
    Negated(journal - Total(balances), |order|);
    WithinAdd(Total(balances) - journal, |order|,
              CA.Drift(s.brokerCash, journal, feeNet) - (s.brokerCash - journal - feeNet), 3);
  }

  lemma Negated(x: real, n: int)
    requires Within(x, n)
    ensures Within(-x, n)
  {
  }

  /**
   What the steps of a run do to the audit's drift is the change of the unbooked shares, up to the roundings of two
   audits; if both accounts are at rest, completed bookings, charges and trades move it by no more than those.
   */
  lemma DriftMovesByUnbooked(order: seq<int>, s: FP.Account, steps: seq<FP.Step>, before: seq<CA.BookView>,
                             after: seq<CA.BookView>)
    requires FP.Basic(s) && FP.Runs(order, s, steps)
    requires LR.Distinct(order) && s.tables.Keys == LR.Elements(order)
    requires Views(order, s, before)
    requires var t := FP.After(order, s, steps); t.initial.Keys == t.tables.Keys && Views(order, t, after)
    ensures var t := FP.After(order, s, steps);
            Within(CA.Drift(t.brokerCash, CA.JournalCash(after), FP.FeeNet(t.fees, t.tables))
                   - CA.Drift(s.brokerCash, CA.JournalCash(before), FP.FeeNet(s.fees, s.tables))
                   - (FP.AllUnbooked(t.fees, t.tables) - FP.AllUnbooked(s.fees, s.tables)), 2 * (|order| + 3))
  {
    var t := FP.After(order, s, steps);
    FP.ParityIsUnbookedShares(order, s, steps);
    FP.AfterKeepsBooks(order, s, steps);
    DriftIsParity(order, s, before);
    DriftIsParity(order, t, after);
    var x := CA.Drift(s.brokerCash, CA.JournalCash(before), FP.FeeNet(s.fees, s.tables)) - FP.Parity(s);
    var y := CA.Drift(t.brokerCash, CA.JournalCash(after), FP.FeeNet(t.fees, t.tables)) - FP.Parity(t);
    Negated(x, |order| + 3);
    WithinAdd(y, |order| + 3, -x, |order| + 3);
  }
}

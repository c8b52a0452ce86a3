/**
 activities_capture.py: `_split_cents`, the apportionment of an account-level amount across the sibling books.
 `weights` is the source's dict; its iteration order is the extra argument `order`, so that a result stated in
 terms of `weights` alone does not depend on it.
 */
module SplitCents {
  import opened Money
  import opened Sums
  import LR = LargestRemainder

  /** `w if w > 0`: a weight of zero or less carries nothing. */
  function Positive(w: Amounts): (r: Amounts)
    ensures r.Keys == w.Keys
  {
    map p | p in w :: if w[p] > 0.0 then w[p] else 0.0
  }

  ghost function WeightSum(w: Amounts): real {
    Total(Positive(w))
  }

  /** Nothing to split, or nobody to split it across: every share is zero. */
  ghost predicate Empty(total: nat, w: Amounts) {
    total == 0 || WeightSum(w) <= 0.0
  }

  function ProRata(total: nat, weight: real, sum: real): real
    requires sum > 0.0
  {
    total as real * weight / sum
  }

  /** The exact pro-rata shares. */
  ghost function Quotas(total: nat, w: Amounts): (r: Amounts)
    ensures r.Keys == w.Keys
  {
    map p | p in w :: if Empty(total, w) then 0.0 else ProRata(total, Positive(w)[p], WeightSum(w))
  }

  /** The share of every book: a function of the weights alone. */
  ghost function Shares(total: nat, w: Amounts): (r: map<int, int>)
    ensures r.Keys == w.Keys
  {
    if Empty(total, w) then map p | p in w :: 0 else LR.Shares(Quotas(total, w), total)
  }

  // ----- quotas -----

  lemma ProRataIsScaled(total: nat, weight: real, sum: real)
    requires sum > 0.0
    ensures ProRata(total, weight, sum) == Times(total as real / sum, weight)
  {
  }

  lemma ProRataBounds(total: nat, a: real, b: real, sum: real)
    requires sum > 0.0 && 0.0 <= a <= b
    ensures 0.0 <= ProRata(total, a, sum) <= ProRata(total, b, sum)
    ensures total > 0 && a < b ==> ProRata(total, a, sum) < ProRata(total, b, sum)
    ensures ProRata(total, 0.0, sum) == 0.0
  {
    var c := total as real / sum;
    assert c >= 0.0;
    assert total > 0 ==> c > 0.0;
    ProRataIsScaled(total, a, sum);
    ProRataIsScaled(total, b, sum);
    assert Times(c, b - a) >= 0.0 && (total > 0 && a < b ==> Times(c, b - a) > 0.0);
    Distribute(c, a, b - a);
  }

  lemma CancelDiv(a: real, c: real)
    requires c > 0.0
    ensures Times(a / c, c) == a
  {
  }

  lemma QuotasAreExact(total: nat, w: Amounts)
    requires !Empty(total, w)
    ensures LR.Exact(Quotas(total, w), total)
  {
    var sum := WeightSum(w);
    forall p | p in w ensures Quotas(total, w)[p] == Times(total as real / sum, Positive(w)[p]) {
      ProRataIsScaled(total, Positive(w)[p], sum);
    }
    SumScaled(w.Keys, Quotas(total, w), total as real / sum, Positive(w));
    CancelDiv(total as real, sum);
  }

  // ----- the loops of the source -----

  lemma Extend(order: seq<int>, i: nat)
    requires LR.Distinct(order) && i < |order|
    ensures LR.Elements(order[..i + 1]) == LR.Elements(order[..i]) + {order[i]}
    ensures order[i] !in LR.Elements(order[..i]) && order[i] in LR.Elements(order)
    ensures LR.Elements(order[..i]) <= LR.Elements(order)
  {
    assert order[..i + 1] == order[..i] + [order[i]];
    assert forall x :: x in order[..i] ==> x in order;
  }

  /** `sum(w for w in weights.values() if w > 0)` */
  method PositiveTotal(weights: Amounts, order: seq<int>) returns (wSum: real)
    requires LR.Distinct(order) && LR.Elements(order) == weights.Keys
    ensures wSum == WeightSum(weights)
  {
    wSum := 0.0;
    for i := 0 to |order|
      invariant LR.Elements(order[..i]) <= weights.Keys
      invariant wSum == Sum(LR.Elements(order[..i]), Positive(weights))
    {
      Extend(order, i);
      SumAdd(LR.Elements(order[..i]), Positive(weights), order[i]);
      if weights[order[i]] > 0.0 {
        wSum := wSum + weights[order[i]];
      }
    }
    assert order[..|order|] == order;
  }

  /** `total_cents - sum(shares.values())` */
  method CentsLeft(total: nat, shares: map<int, int>, order: seq<int>) returns (short: int)
    requires LR.Distinct(order) && LR.Elements(order) == shares.Keys
    ensures short as real == total as real - Total(LR.AsReals(shares))
  {
    short := total;
    for i := 0 to |order|
      invariant LR.Elements(order[..i]) <= shares.Keys
      invariant short as real == total as real - Sum(LR.Elements(order[..i]), LR.AsReals(shares))
    {
      Extend(order, i);
      SumAdd(LR.Elements(order[..i]), LR.AsReals(shares), order[i]);
      short := short - shares[order[i]];
    }
    assert order[..|order|] == order;
  }

  /** `for pid, _ in ranked: shares[pid] += 1` */
  method AddOneEach(floors: map<int, int>, ranked: seq<int>) returns (shares: map<int, int>)
    requires LR.Distinct(ranked) && LR.Elements(ranked) <= floors.Keys
    ensures shares.Keys == floors.Keys
    ensures forall p :: p in floors ==> shares[p] == floors[p] + if p in ranked then 1 else 0
  {
    shares := floors;
    for i := 0 to |ranked|
      invariant shares.Keys == floors.Keys
      invariant forall p :: p in floors ==> shares[p] == floors[p] + if p in ranked[..i] then 1 else 0
    {
      Extend(ranked, i);
      assert ranked[..i + 1] == ranked[..i] + [ranked[i]];
      shares := shares[ranked[i] := shares[ranked[i]] + 1];
    }
    assert ranked[..|ranked|] == ranked;
  }

  method Split(total: nat, weights: Amounts, order: seq<int>) returns (shares: map<int, int>)
    requires LR.Distinct(order) && LR.Elements(order) == weights.Keys
    ensures shares == Shares(total, weights)
  {
    var wSum := PositiveTotal(weights, order);
    if total == 0 || wSum <= 0.0 {
      shares := map p | p in weights :: 0;
      return;
    }
    var raw := map p | p in weights :: ProRata(total, if weights[p] > 0.0 then weights[p] else 0.0, wSum);
    QuotasAreExact(total, weights);
    assert raw == Quotas(total, weights);
    shares := TopUp(total, raw, order);
  }

  /** From the raw quotas to the shares. */
  method TopUp(total: nat, raw: Amounts, order: seq<int>) returns (shares: map<int, int>)
    requires LR.Distinct(order) && LR.Elements(order) == raw.Keys
    requires LR.Exact(raw, total)
    ensures shares == LR.Shares(raw, total)
  {
    var floors := map p | p in raw :: raw[p].Floor;
    var short := CentsLeft(total, floors, order);
    ShortIsLeft(total, raw, floors, short);
    var ranked := RankedKeys(order, LR.Remainders(raw));
    CutIsTopUp(total, raw, ranked);
    shares := AddOneEach(floors, ranked[..short]);
    SharesAre(total, raw, ranked[..short], shares);
  }

  lemma SharesAre(total: nat, raw: Amounts, cut: seq<int>, shares: map<int, int>)
    requires shares.Keys == raw.Keys
    requires forall p :: p in raw ==> (p in cut <==> LR.ToppedUp(raw, total, p))
    requires forall p :: p in raw ==> shares[p] == raw[p].Floor + if p in cut then 1 else 0
    ensures shares == LR.Shares(raw, total)
  {
    forall p | p in raw ensures shares[p] == LR.Shares(raw, total)[p] {
      assert p in cut <==> LR.ToppedUp(raw, total, p);
    }
  }

  lemma ShortIsLeft(total: nat, raw: Amounts, floors: map<int, int>, short: int)
    requires floors == map p | p in raw :: raw[p].Floor
    requires short as real == total as real - Total(LR.AsReals(floors))
    ensures short == LR.Short(raw, total)
  {
    SumCongruent(raw.Keys, LR.AsReals(floors), LR.Floors(raw));
    LR.ShortIs(raw, total);
  }

  function RankedKeys(order: seq<int>, rem: Amounts): (ranked: seq<int>)
    requires LR.Distinct(order) && LR.Elements(order) == rem.Keys
    ensures LR.IsSorted(ranked, rem) && |ranked| == |rem| && LR.Elements(ranked) == rem.Keys
  {
    LR.DistinctSize(order);
    assert forall x :: x in order <==> x in LR.Elements(order);
    var s := LR.SortKeys(order, rem);
    assert forall x :: x in s <==> x in LR.Elements(order);
    s
  }

  /** The first `short` ranked books are the ones to top up. */
  lemma CutIsTopUp(total: nat, raw: Amounts, ranked: seq<int>)
    requires LR.Exact(raw, total)
    requires LR.IsSorted(ranked, LR.Remainders(raw)) && LR.Elements(ranked) == raw.Keys && |ranked| == |raw|
    ensures 0 <= LR.Short(raw, total) <= |ranked|
    ensures var cut := ranked[..LR.Short(raw, total)];
            LR.Distinct(cut) && LR.Elements(cut) <= raw.Keys
            && forall p :: p in raw ==> (p in cut <==> LR.ToppedUp(raw, total, p))
  {
    LR.ShortBounds(raw, total);
    LR.CutIsRank(ranked, LR.Remainders(raw), LR.Short(raw, total));
  }

  // ----- what the split promises -----

  /** Every share is a whole number of cents: the floor of its quota or one more. */
  lemma ShareIsQuotaRounded(total: nat, w: Amounts, p: int)
    requires p in w
    ensures Quotas(total, w)[p].Floor <= Shares(total, w)[p] <= Quotas(total, w)[p].Floor + 1
    ensures Shares(total, w)[p] >= 0
  {
    if !Empty(total, w) {
      ProRataBounds(total, 0.0, Positive(w)[p], WeightSum(w));
    }
  }

  /** The exact pro-rata share of a book. */
  lemma QuotaTimesSum(total: nat, w: Amounts, p: int)
    requires p in w && WeightSum(w) > 0.0
    ensures Times(WeightSum(w), Quotas(total, w)[p]) == Times(total as real, if w[p] > 0.0 then w[p] else 0.0)
  {
  }

  lemma ShareNearQuota(total: nat, w: Amounts, p: int)
    requires p in w
    ensures -1.0 < LR.ToReal(Shares(total, w)[p]) - Quotas(total, w)[p] < 1.0
  {
    if !Empty(total, w) {
      QuotasAreExact(total, w);
      ShareIsQuotaRounded(total, w, p);
      if LR.RemainderOf(Quotas(total, w)[p]) == 0.0 {
        LR.WholeQuotaIsShare(Quotas(total, w), total, p);
      }
    }
  }

  lemma BelowScale(x: real, sum: real)
    requires x > 0.0 && sum > 0.0
    ensures Times(sum, x) > 0.0 && Times(sum, 1.0) == sum
  {
  }

  lemma NegatedTimes(c: real, x: real)
    ensures Times(c, -x) == -Times(c, x)
  {
  }

  lemma NearTimes(share: real, quota: real, sum: real)
    requires sum > 0.0 && -1.0 < share - quota < 1.0
    ensures Abs(Times(sum, share) - Times(sum, quota)) < sum
  {
    Distribute(sum, share - quota, quota);
    BelowScale(1.0 - (share - quota), sum);
    BelowScale(1.0 + (share - quota), sum);
    Distribute(sum, 1.0 - (share - quota), share - quota);
    Distribute(sum, 1.0 + (share - quota), -(share - quota));
    NegatedTimes(sum, share - quota);
  }

  /** Pro rata: a book's share of the total is its weight's part of all weights, to within less than one cent. */
  lemma ShareIsProRata(total: nat, w: Amounts, p: int)
    requires p in w && WeightSum(w) > 0.0
    ensures Abs(Times(WeightSum(w), LR.ToReal(Shares(total, w)[p]))
                - Times(total as real, if w[p] > 0.0 then w[p] else 0.0)) < WeightSum(w)
  {
    QuotaTimesSum(total, w, p);
    ShareNearQuota(total, w, p);
    NearTimes(LR.ToReal(Shares(total, w)[p]), Quotas(total, w)[p], WeightSum(w));
  }

  /** The shares add up to the broker's total, to the cent, as soon as one book has weight. */
  lemma SharesConserve(total: nat, w: Amounts)
    ensures Total(LR.AsReals(Shares(total, w))) == if WeightSum(w) <= 0.0 then 0.0 else total as real
  {
    if Empty(total, w) {
      SumOfZeros(w.Keys, LR.AsReals(Shares(total, w)));
    } else {
      QuotasAreExact(total, w);
      LR.SharesConserve(Quotas(total, w), total);
    }
  }

  /** There is a book with positive weight exactly when the weights have a positive sum. */
  lemma SomeWeight(w: Amounts)
    ensures WeightSum(w) > 0.0 <==> exists p :: p in w && w[p] > 0.0
  {
    if p :| p in w && w[p] > 0.0 {
      SumPick(w.Keys, Positive(w), p);
      SumBetween(w.Keys - {p}, Positive(w), 0.0, WeightBound(w));
    } else {
      SumOfZeros(w.Keys, Positive(w));
    }
  }

  ghost function WeightBound(w: Amounts): (b: real)
    ensures forall p :: p in w ==> w[p] <= b
    ensures b >= 0.0
    decreases |w|
  {
    if w == map[] then 0.0 else
      var p := Pick(w.Keys);
      var rest := WeightBound(w - {p});
      assert forall r :: r in w && r != p ==> r in w - {p};
      if w[p] > rest then w[p] else rest
  }

  /** A book without positive weight gets nothing. */
  lemma NoWeightNoShare(total: nat, w: Amounts, p: int)
    requires p in w && w[p] <= 0.0
    ensures Shares(total, w)[p] == 0
  {
    if !Empty(total, w) {
      ProRataBounds(total, 0.0, 0.0, WeightSum(w));
      QuotasAreExact(total, w);
      LR.WholeQuotaIsShare(Quotas(total, w), total, p);
    }
  }

  /** A strictly heavier book never gets less. */
  lemma HeavierGetsNoLess(total: nat, w: Amounts, p: int, r: int)
    requires p in w && r in w && w[p] > w[r]
    ensures Shares(total, w)[p] >= Shares(total, w)[r]
  {
    if !Empty(total, w) {
      if w[p] > 0.0 {
        ProRataBounds(total, Positive(w)[r], Positive(w)[p], WeightSum(w));
        LR.LargerQuotaGetsNoLess(Quotas(total, w), total, p, r);
      } else {
        NoWeightNoShare(total, w, p);
        NoWeightNoShare(total, w, r);
      }
    }
  }

  /** Books of equal weight differ by at most one cent, and the smaller id gets it. */
  lemma EqualWeightsDifferByOne(total: nat, w: Amounts, p: int, r: int)
    requires p in w && r in w && w[p] == w[r] && p <= r
    ensures 0 <= Shares(total, w)[p] - Shares(total, w)[r] <= 1
  {
    if !Empty(total, w) && p != r {
      LR.TieGoesToSmaller(Quotas(total, w), total, p, r);
    }
  }

  /** No other whole-cent split of the same total is closer to the exact pro-rata shares. */
  lemma SplitIsOptimal(total: nat, w: Amounts, other: map<int, int>)
    requires other.Keys == w.Keys
    requires Total(LR.AsReals(other)) == Total(LR.AsReals(Shares(total, w)))
    ensures LR.Deviation(Quotas(total, w), Shares(total, w)) <= LR.Deviation(Quotas(total, w), other)
  {
    var q := Quotas(total, w);
    if Empty(total, w) {
      SumAtMost(w.Keys, LR.Gaps(q, Shares(total, w)), LR.Gaps(q, other));
    } else {
      QuotasAreExact(total, w);
      SharesConserve(total, w);
      LR.SplitIsOptimal(q, total, other);
    }
  }
}

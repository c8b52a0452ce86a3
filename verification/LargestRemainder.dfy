/**
 The largest-remainder method over arbitrary exact quotas: floor every quota, then hand the missing units to the
 largest remainders, the smaller id first among equals.
 */
module LargestRemainder {
  import opened Money
  import opened Sums

  function FloorOf(x: real): real {
    x.Floor as real
  }

  function RemainderOf(x: real): (r: real)
    ensures 0.0 <= r < 1.0
  {
    x - x.Floor as real
  }

  function Floors(q: Amounts): (r: Amounts)
    ensures r.Keys == q.Keys
  {
    map p | p in q :: FloorOf(q[p])
  }

  function Remainders(q: Amounts): (r: Amounts)
    ensures r.Keys == q.Keys
  {
    map p | p in q :: RemainderOf(q[p])
  }

  /** The sort key of the source: larger remainder first, then smaller profile id. */
  predicate Before(rem: Amounts, p: int, r: int)
    requires p in rem && r in rem
  {
    rem[p] > rem[r] || (rem[p] == rem[r] && p < r)
  }

  ghost function Ahead(rem: Amounts, p: int): set<int>
    requires p in rem
  {
    set r | r in rem && Before(rem, r, p)
  }

  /** How many books get one unit more than their floor. */
  ghost function Short(q: Amounts, total: int): int {
    total - Total(Floors(q)).Floor
  }

  ghost predicate ToppedUp(q: Amounts, total: int, p: int)
    requires p in q
  {
    |Ahead(Remainders(q), p)| < Short(q, total)
  }

  ghost function Share(q: Amounts, total: int, p: int): int
    requires p in q
  {
    q[p].Floor + if ToppedUp(q, total, p) then 1 else 0
  }

  ghost function Shares(q: Amounts, total: int): (r: map<int, int>)
    ensures r.Keys == q.Keys
  {
    map p | p in q :: Share(q, total, p)
  }

  function ToReal(n: int): real {
    n as real
  }

  function AsReals(split: map<int, int>): (r: Amounts)
    ensures r.Keys == split.Keys
  {
    map p | p in split :: ToReal(split[p])
  }

  ghost predicate Exact(q: Amounts, total: int) {
    Total(q) == total as real
  }

  // ----- how many units are missing -----

  lemma ShortIs(q: Amounts, total: int)
    ensures Short(q, total) as real == total as real - Total(Floors(q))
  {
    var n := WholeSum(q.Keys, Floors(q));
  }

  lemma RemaindersSum(q: Amounts, total: int)
    requires Exact(q, total)
    ensures Total(Remainders(q)) == Short(q, total) as real
  {
    SumOfPairs(q.Keys, q, Floors(q), Remainders(q));
    ShortIs(q, total);
  }

  ghost function WithRemainder(q: Amounts): set<int> {
    set p | p in q && RemainderOf(q[p]) > 0.0
  }

  /** The `[:short]` slice never overruns: no more extra units than books with a remainder. */
  lemma ShortBounds(q: Amounts, total: int)
    requires Exact(q, total)
    ensures 0 <= Short(q, total) <= |WithRemainder(q)| <= |q|
  {
    var z, r := WithRemainder(q), Remainders(q);
    RemaindersSum(q, total);
    SumSupport(q.Keys, z, r);
    SumBetween(z, r, 0.0, 1.0);
    SubsetSize(z, q.Keys);
  }

  // ----- the sort -----

  ghost predicate Distinct(s: seq<int>) {
    forall i, j :: 0 <= i < j < |s| ==> s[i] != s[j]
  }

  function Elements(s: seq<int>): set<int> {
    set x | x in s
  }

  ghost predicate IsSorted(s: seq<int>, rem: Amounts) {
    && (forall i :: 0 <= i < |s| ==> s[i] in rem)
    && (forall i, j :: 0 <= i < j < |s| ==> Before(rem, s[i], s[j]))
  }

  function Insert(s: seq<int>, rem: Amounts, p: int): (r: seq<int>)
    requires IsSorted(s, rem) && p in rem && p !in s
    ensures IsSorted(r, rem)
    ensures forall x :: x in r <==> x == p || x in s
    ensures |r| == |s| + 1
  {
    if s == [] then [p]
    else if Before(rem, p, s[0]) then [p] + s
    else
      assert forall x :: x in s[1..] ==> x in s;
      var t := Insert(s[1..], rem, p);
      assert forall i :: 0 <= i < |t| ==> t[i] in t;
      assert forall x :: x in s[1..] ==> Before(rem, s[0], x);
      [s[0]] + t
  }

  /** `sorted(…, key=lambda kv: (-kv[1], kv[0]))` over distinct profile ids. */
  function SortKeys(keys: seq<int>, rem: Amounts): (r: seq<int>)
    requires Distinct(keys) && forall x :: x in keys ==> x in rem
    ensures IsSorted(r, rem) && |r| == |keys|
    ensures forall x :: x in r <==> x in keys
  {
    if keys == [] then []
    else
      assert keys == [keys[0]] + keys[1..];
      Insert(SortKeys(keys[1..], rem), rem, keys[0])
  }

  lemma {:induction false} DistinctSize(s: seq<int>)
    requires Distinct(s)
    ensures |Elements(s)| == |s|
  {
    if s != [] {
      DistinctSize(s[1..]);
      assert s == [s[0]] + s[1..];
      assert Elements(s) == {s[0]} + Elements(s[1..]);
    }
  }

  /** In the sorted order a book's index is the number of books ahead of it. */
  lemma RankIsIndex(s: seq<int>, rem: Amounts, k: nat)
    requires IsSorted(s, rem) && Elements(s) == rem.Keys && k < |s|
    ensures |Ahead(rem, s[k])| == k
  {
    var front := s[..k];
    forall p | p in Ahead(rem, s[k]) ensures p in front {
      assert p in Elements(s);
      var i :| 0 <= i < |s| && s[i] == p;
      assert i < k;
      assert front[i] == p;
    }
    assert forall p :: p in front ==> p in Elements(s);
    assert Ahead(rem, s[k]) == Elements(front);
    DistinctSize(front);
  }

  /** Cutting the sorted books after k of them selects exactly the books with fewer than k ahead. */
  lemma CutIsRank(s: seq<int>, rem: Amounts, k: nat)
    requires IsSorted(s, rem) && Elements(s) == rem.Keys && k <= |s|
    ensures Elements(s[..k]) <= rem.Keys && Distinct(s[..k])
    ensures forall p :: p in rem ==> (p in s[..k] <==> |Ahead(rem, p)| < k)
  {
    assert forall p :: p in s[..k] ==> p in Elements(s);
    forall p | p in rem ensures p in s[..k] <==> |Ahead(rem, p)| < k {
      assert p in Elements(s);
      var i :| 0 <= i < |s| && s[i] == p;
      RankIsIndex(s, rem, i);
      if i < k {
        assert s[..k][i] == p;
      }
    }
  }

  ghost function Enumerate(s: set<int>): (r: seq<int>)
    ensures Distinct(r) && Elements(r) == s
  {
    if s == {} then [] else
      var x := Pick(s);
      var t := Enumerate(s - {x});
      assert s == {x} + (s - {x});
      assert forall y :: y in t <==> y in Elements(t);
      [x] + t
  }

  ghost function Sorted(rem: Amounts): (s: seq<int>)
    ensures IsSorted(s, rem) && Distinct(s) && Elements(s) == rem.Keys && |s| == |rem|
  {
    var e := Enumerate(rem.Keys);
    assert forall x :: x in e ==> x in Elements(e);
    DistinctSize(e);
    var s := SortKeys(e, rem);
    assert forall x :: x in Elements(e) <==> x in s;
    s
  }

  // ----- what the split promises -----

  function Indicator(keys: set<int>, top: set<int>): (r: Amounts)
    ensures r.Keys == keys
  {
    map p | p in keys :: if p in top then 1.0 else 0.0
  }

  lemma IndicatorSum(keys: set<int>, top: set<int>)
    requires top <= keys
    ensures Total(Indicator(keys, top)) == |top| as real
  {
    var one := Indicator(keys, top);
    SumSupport(keys, top, one);
    SumBetween(top, one, 1.0, 1.0);
  }

  /** The first k books of the ranking. */
  ghost function Leading(rem: Amounts, k: int): set<int> {
    set p | p in rem && |Ahead(rem, p)| < k
  }

  lemma LeadingSize(rem: Amounts, k: nat)
    requires k <= |rem|
    ensures |Leading(rem, k)| == k
  {
    var s := Sorted(rem);
    CutIsRank(s, rem, k);
    DistinctSize(s[..k]);
    assert Leading(rem, k) == Elements(s[..k]);
  }

  /** The shares add up to the total. */
  lemma SharesConserve(q: Amounts, total: int)
    requires Exact(q, total)
    ensures Total(AsReals(Shares(q, total))) == total as real
  {
    var top := Leading(Remainders(q), Short(q, total));
    ShortBounds(q, total);
    LeadingSize(Remainders(q), Short(q, total));
    IndicatorSum(q.Keys, top);
    SumOfPairs(q.Keys, AsReals(Shares(q, total)), Floors(q), Indicator(q.Keys, top));
    ShortIs(q, total);
  }

  /** A book whose quota is whole gets exactly its quota. */
  lemma WholeQuotaIsShare(q: Amounts, total: int, p: int)
    requires Exact(q, total) && p in q && RemainderOf(q[p]) == 0.0
    ensures Share(q, total, p) == q[p].Floor
  {
    ShortBounds(q, total);
    SubsetSize(WithRemainder(q), Ahead(Remainders(q), p));
  }

  /** Of two equal quotas the book with the smaller id is ahead. */
  lemma TieGoesToSmaller(q: Amounts, total: int, p: int, r: int)
    requires p in q && r in q && q[p] == q[r] && p < r
    ensures 0 <= Share(q, total, p) - Share(q, total, r) <= 1
  {
    SubsetSize(Ahead(Remainders(q), p), Ahead(Remainders(q), r));
  }

  /** A book with a strictly larger quota never gets less. */
  lemma LargerQuotaGetsNoLess(q: Amounts, total: int, p: int, r: int)
    requires p in q && r in q && q[p] > q[r]
    ensures Share(q, total, p) >= Share(q, total, r)
  {
    if q[p].Floor == q[r].Floor {
      SubsetSize(Ahead(Remainders(q), p), Ahead(Remainders(q), r));
    }
  }

  // ----- optimality -----

  function Gap(quota: real, share: int): real {
    Abs(share as real - quota)
  }

  function Gaps(q: Amounts, split: map<int, int>): (r: Amounts)
    requires q.Keys <= split.Keys
    ensures r.Keys == q.Keys
  {
    map p | p in q :: Gap(q[p], split[p])
  }

  /** Total deviation of a split from the exact quotas. */
  ghost function Deviation(q: Amounts, split: map<int, int>): real
    requires q.Keys <= split.Keys
  {
    Total(Gaps(q, split))
  }

  /** The first k of the ranking have no smaller remainder than the k-th, the others no larger one. */
  lemma CutSeparates(s: seq<int>, rem: Amounts, k: nat, i: nat)
    requires 0 < k <= |s| && i < |s| && IsSorted(s, rem) && Distinct(s) && Elements(s) == rem.Keys
    ensures s[i] in rem && s[k - 1] in rem
    ensures if i < k then rem[s[i]] >= rem[s[k - 1]] else rem[s[i]] <= rem[s[k - 1]]
  {
    assert s[i] in Elements(s) && s[k - 1] in Elements(s);
    if i < k - 1 {
      assert Before(rem, s[i], s[k - 1]);
    } else if i > k - 1 {
      assert Before(rem, s[k - 1], s[i]);
    }
  }

  lemma ThresholdAt(q: Amounts, total: int, s: seq<int>, p: int)
    requires IsSorted(s, Remainders(q)) && Distinct(s) && Elements(s) == q.Keys
    requires p in q && 0 < Short(q, total) <= |s|
    ensures s[Short(q, total) - 1] in q
    ensures var t := RemainderOf(q[s[Short(q, total) - 1]]);
            if ToppedUp(q, total, p) then RemainderOf(q[p]) >= t else RemainderOf(q[p]) <= t
  {
    var rem, k := Remainders(q), Short(q, total);
    assert p in Elements(s);
    var i :| 0 <= i < |s| && s[i] == p;
    RankIsIndex(s, rem, i);
    CutSeparates(s, rem, k, i);
  }

  /** The topped-up books have at least this remainder, the others at most. */
  ghost predicate Separates(q: Amounts, total: int, t: real) {
    forall p :: p in q ==> if ToppedUp(q, total, p) then RemainderOf(q[p]) >= t else RemainderOf(q[p]) <= t
  }

  lemma NoneToppedUp(q: Amounts, total: int)
    requires Short(q, total) == 0
    ensures Separates(q, total, 1.0)
  {
  }

  lemma SomeToppedUp(q: Amounts, total: int, s: seq<int>) returns (t: real)
    requires IsSorted(s, Remainders(q)) && Distinct(s) && Elements(s) == q.Keys
    requires 0 < Short(q, total) <= |s|
    ensures 0.0 <= t <= 1.0 && Separates(q, total, t)
  {
    assert s[Short(q, total) - 1] in Elements(s);
    t := RemainderOf(q[s[Short(q, total) - 1]]);
    forall p | p in q
      ensures if ToppedUp(q, total, p) then RemainderOf(q[p]) >= t else RemainderOf(q[p]) <= t
    {
      ThresholdAt(q, total, s, p);
    }
  }

  lemma SortedSize(q: Amounts)
    ensures |Sorted(Remainders(q))| == |q|
  {
    var rem := Remainders(q);
    assert |rem| == |rem.Keys| == |q.Keys| == |q|;
  }

  /** A remainder that separates the topped-up books from the others. */
  lemma Threshold(q: Amounts, total: int) returns (t: real)
    requires Exact(q, total)
    ensures 0.0 <= t <= 1.0 && Separates(q, total, t)
  {
    ShortBounds(q, total);
    SortedSize(q);
    if Short(q, total) == 0 {
      t := 1.0;
      NoneToppedUp(q, total);
    } else {
      t := SomeToppedUp(q, total, Sorted(Remainders(q)));
    }
  }

  lemma ScaledUp(a: real, n: real)
    requires a >= 0.0 && n >= 1.0
    ensures Times(a, n) >= a
  {
  }

  lemma ChargeOf(t: real, m: real)
    ensures Times(1.0 - 2.0 * t, m) == m - 2.0 * Times(t, m)
  {
  }

  /** What n units cost a book when every unit carries the charge c. */
  function Priced(quota: real, c: real, n: int): real {
    Gap(quota, n) - Times(c, n as real)
  }

  /** At a charge of `1 - 2t`, the chosen whole number is the cheapest one for each book alone. */
  lemma LocallyBest(r: real, t: real, mine: int, n: int)
    requires 0.0 <= t <= 1.0 && 0.0 <= r < 1.0
    requires (mine == 1 && r >= t) || (mine == 0 && r <= t)
    ensures Priced(r, 1.0 - 2.0 * t, mine) <= Priced(r, 1.0 - 2.0 * t, n)
  {
    var m, c := n as real, 1.0 - 2.0 * t;
    var tm := Times(t, m);
    ChargeOf(t, m);
    ChargeOf(t, mine as real);
    assert Priced(r, c, mine) == if mine == 0 then r else 2.0 * t - r;
    if n >= 1 {
      assert Priced(r, c, n) == 2.0 * tm - r;
      ScaledUp(t, m);
    } else if n < 0 {
      assert Priced(r, c, n) == r - 2.0 * m + 2.0 * tm;
      ScaledUp(1.0 - t, -m);
      assert Times(1.0 - t, -m) == tm - m;
    }
  }

  /** A quota and a share moved by the same whole number of units. */
  lemma PricedShift(quota: real, c: real, n: int)
    ensures Priced(quota, c, n)
         == Priced(RemainderOf(quota), c, n - quota.Floor) - Times(c, FloorOf(quota))
  {
    Distribute(c, (n - quota.Floor) as real, quota.Floor as real);
  }

  function Charges(c: real, split: map<int, int>): (r: Amounts)
    ensures r.Keys == split.Keys
  {
    map p | p in split :: Times(c, split[p] as real)
  }

  /** A charge at which every book's share is its cheapest whole number. */
  lemma FairCharge(q: Amounts, total: int) returns (c: real)
    requires Exact(q, total)
    ensures forall p, n {:trigger Priced(q[p], c, n)} ::
              p in q ==> Priced(q[p], c, Share(q, total, p)) <= Priced(q[p], c, n)
  {
    var t := Threshold(q, total);
    c := 1.0 - 2.0 * t;
    forall p, n {:trigger Priced(q[p], c, n)} | p in q
      ensures Priced(q[p], c, Share(q, total, p)) <= Priced(q[p], c, n)
    {
      LocallyBest(RemainderOf(q[p]), t, Share(q, total, p) - q[p].Floor, n - q[p].Floor);
      PricedShift(q[p], c, n);
      PricedShift(q[p], c, Share(q, total, p));
    }
  }

  /** No other whole split of the same total is closer to the exact quotas. */
  lemma SplitIsOptimal(q: Amounts, total: int, other: map<int, int>)
    requires Exact(q, total) && other.Keys == q.Keys
    requires Total(AsReals(other)) == total as real
    ensures Deviation(q, Shares(q, total)) <= Deviation(q, other)
  {
    var c := FairCharge(q, total);
    var mine := Shares(q, total);
    SharesConserve(q, total);
    SumScaled(q.Keys, Charges(c, mine), c, AsReals(mine));
    SumScaled(q.Keys, Charges(c, other), c, AsReals(other));
    forall p | p in q ensures Gaps(q, mine)[p] - Charges(c, mine)[p] <= Gaps(q, other)[p] - Charges(c, other)[p] {
      assert Priced(q[p], c, mine[p]) <= Priced(q[p], c, other[p]);
    }
    PricedSums(q.Keys, Gaps(q, mine), Charges(c, mine), Gaps(q, other), Charges(c, other));
  }
}

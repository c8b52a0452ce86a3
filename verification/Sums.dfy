/** Sums over the books of an account: finite sets of profile ids with one amount each. */
module Sums {
  import opened Money

  type Amounts = map<int, real>

  ghost function Pick<T>(s: set<T>): (x: T)
    requires s != {}
    ensures x in s
  {
    var x :| x in s; x
  }

  ghost function Sum(s: set<int>, m: Amounts): real
    requires s <= m.Keys
  {
    if s == {} then 0.0 else
      var x := Pick(s); m[x] + Sum(s - {x}, m)
  }

  ghost function Total(m: Amounts): real {
    Sum(m.Keys, m)
  }

  lemma {:induction false} SubsetSize<T>(a: set<T>, b: set<T>)
    requires a <= b
    ensures |a| <= |b|
    decreases |a|
  {
    if a != {} {
      var x := Pick(a);
      SubsetSize(a - {x}, b - {x});
    }
  }

  /** The sum does not depend on the order in which the ids are visited. */
  lemma {:induction false} SumPick(s: set<int>, m: Amounts, x: int)
    requires x in s && s <= m.Keys
    ensures Sum(s, m) == m[x] + Sum(s - {x}, m)
    decreases |s|
  {
    var y := Pick(s);
    if x != y {
      SumPick(s - {y}, m, x);
      SumPick(s - {x}, m, y);
      assert s - {x} - {y} == s - {y} - {x};
    }
  }

  lemma {:induction false} SumAdd(s: set<int>, m: Amounts, x: int)
    requires x in m && x !in s && s <= m.Keys
    ensures Sum(s + {x}, m) == m[x] + Sum(s, m)
  {
    SumPick(s + {x}, m, x);
    assert s + {x} - {x} == s;
  }

  lemma {:induction false} SumAtMost(s: set<int>, f: Amounts, g: Amounts)
    requires s <= f.Keys && s <= g.Keys
    requires forall x :: x in s ==> f[x] <= g[x]
    ensures Sum(s, f) <= Sum(s, g)
    decreases |s|
  {
    if s != {} {
      var x := Pick(s);
      SumAtMost(s - {x}, f, g);
    }
  }

  lemma {:induction false} SumCongruent(s: set<int>, f: Amounts, g: Amounts)
    requires s <= f.Keys && s <= g.Keys
    requires forall x :: x in s ==> f[x] == g[x]
    ensures Sum(s, f) == Sum(s, g)
  {
    SumAtMost(s, f, g);
    SumAtMost(s, g, f);
  }

  lemma {:induction false} SumOfPairs(s: set<int>, f: Amounts, g: Amounts, h: Amounts)
    requires s <= f.Keys && s <= g.Keys && s <= h.Keys
    requires forall x :: x in s ==> f[x] == g[x] + h[x]
    ensures Sum(s, f) == Sum(s, g) + Sum(s, h)
    decreases |s|
  {
    if s != {} {
      var x := Pick(s);
      SumOfPairs(s - {x}, f, g, h);
    }
  }

  lemma {:induction false} SumScaled(s: set<int>, f: Amounts, c: real, g: Amounts)
    requires s <= f.Keys && s <= g.Keys
    requires forall x :: x in s ==> f[x] == Times(c, g[x])
    ensures Sum(s, f) == Times(c, Sum(s, g))
    decreases |s|
  {
    if s != {} {
      var x := Pick(s);
      SumScaled(s - {x}, f, c, g);
      Distribute(c, g[x], Sum(s - {x}, g));
    }
  }

  /** Cheaper item by item after the same total charge is cheaper in total. */
  lemma {:induction false} PricedSums(s: set<int>, a: Amounts, x: Amounts, b: Amounts, y: Amounts)
    requires s <= a.Keys && s <= b.Keys && s <= x.Keys && s <= y.Keys
    requires forall i :: i in s ==> a[i] - x[i] <= b[i] - y[i]
    ensures Sum(s, a) - Sum(s, x) <= Sum(s, b) - Sum(s, y)
    decreases |s|
  {
    if s != {} {
      var i := Pick(s);
      PricedSums(s - {i}, a, x, b, y);
    }
  }

  /** Bounds on the items bound the sum. */
  lemma {:induction false} SumBetween(s: set<int>, m: Amounts, lo: real, hi: real)
    requires s <= m.Keys
    requires forall x :: x in s ==> lo <= m[x] <= hi
    ensures Times(lo, |s| as real) <= Sum(s, m) <= Times(hi, |s| as real)
    decreases |s|
  {
    if s != {} {
      var x := Pick(s);
      SumBetween(s - {x}, m, lo, hi);
      assert |s| as real == |s - {x}| as real + 1.0;
      Distribute(lo, |s - {x}| as real, 1.0);
      Distribute(hi, |s - {x}| as real, 1.0);
    }
  }

  lemma {:induction false} SumOfZeros(s: set<int>, m: Amounts)
    requires s <= m.Keys
    requires forall x :: x in s ==> m[x] == 0.0
    ensures Sum(s, m) == 0.0
    decreases |s|
  {
    if s != {} {
      var x := Pick(s);
      SumOfZeros(s - {x}, m);
    }
  }

  /** A sum of whole numbers is whole. */
  lemma {:induction false} WholeSum(s: set<int>, m: Amounts) returns (n: int)
    requires s <= m.Keys
    requires forall x :: x in s ==> m[x] == m[x].Floor as real
    ensures Sum(s, m) == n as real
    decreases |s|
  {
    if s == {} {
      n := 0;
    } else {
      var x := Pick(s);
      var k := WholeSum(s - {x}, m);
      n := m[x].Floor + k;
    }
  }

  /** A change confined to one id moves the sum by exactly that change. */
  lemma {:induction false} SumChangedAt(s: set<int>, f: Amounts, g: Amounts, x: int)
    requires x in s && s <= f.Keys && s <= g.Keys
    requires forall y :: y in s && y != x ==> f[y] == g[y]
    ensures Sum(s, g) - Sum(s, f) == g[x] - f[x]
  {
    SumPick(s, f, x);
    SumPick(s, g, x);
    SumCongruent(s - {x}, f, g);
  }

  /** Ids with a zero amount do not matter. */
  lemma {:induction false} SumSupport(s: set<int>, z: set<int>, m: Amounts)
    requires z <= s <= m.Keys
    requires forall x :: x in s && x !in z ==> m[x] == 0.0
    ensures Sum(s, m) == Sum(z, m)
    decreases |s|
  {
    if s - z == {} {
      assert s == z;
    } else {
      var x := Pick(s - z);
      SumPick(s, m, x);
      SumSupport(s - {x}, z, m);
    }
  }
}

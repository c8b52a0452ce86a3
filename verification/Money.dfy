/**
 Exact money arithmetic. Dollar amounts, prices and quantities are reals; the source's
 `round(x, 2)` is Python's round-half-to-even on cents.
 */
module Money {

  datatype Option<+T> = None | Some(value: T)

  function Abs(x: real): (r: real)
    ensures r >= 0.0 && (r == x || r == -x)
  {
    if x < 0.0 then -x else x
  }

  /** The nearest integer, ties to the even one. */
  function RoundHalfEven(x: real): (n: int)
    ensures -0.5 <= n as real - x <= 0.5
  {
    var f := x.Floor;
    var r := x - f as real;
    if r < 0.5 || (r == 0.5 && f % 2 == 0) then f else f + 1
  }

  /** Nothing is nearer, and of two integers as near the even one is taken. */
  lemma RoundIsNearest(x: real, m: int)
    ensures var n := RoundHalfEven(x);
            || m == n || Abs(n as real - x) < Abs(m as real - x)
            || (Abs(n as real - x) == Abs(m as real - x) && n % 2 == 0)
  {
  }

  lemma RoundIsMonotone(x: real, y: real)
    requires x <= y
    ensures RoundHalfEven(x) <= RoundHalfEven(y)
  {
  }

  /** Rounding is symmetric around zero, so a debit rounds like the credit of the same size. */
  lemma RoundIsOdd(x: real)
    ensures RoundHalfEven(-x) == -RoundHalfEven(x)
  {
    var f, g := x.Floor, (-x).Floor;
    if x == f as real {
      assert g == -f;
    } else {
      assert g == -f - 1;
    }
  }

  lemma RoundOfWhole(n: int)
    ensures RoundHalfEven(n as real) == n
  {
  }

  function Cents(n: int): real {
    n as real / 100.0
  }

  function Round2(x: real): (r: real)
    ensures Abs(r - x) <= 0.005
  {
    Cents(RoundHalfEven(x * 100.0))
  }

  lemma Round2IsOdd(x: real)
    ensures Round2(-x) == -Round2(x)
  {
    RoundIsOdd(x * 100.0);
    assert (-x) * 100.0 == -(x * 100.0);
  }

  lemma Round2OfCents(n: int)
    ensures Round2(Cents(n)) == Cents(n)
  {
    assert Cents(n) * 100.0 == n as real;
    RoundOfWhole(n);
  }

  /** Products are named so that proofs treat equal factors as equal products. */
  function Times(c: real, x: real): real {
    c * x
  }

  lemma Distribute(c: real, a: real, b: real)
    ensures Times(c, a + b) == Times(c, a) + Times(c, b)
  {
  }

  /** At most half a cent for each of n roundings. */
  predicate Within(x: real, n: int) {
    -0.005 * n as real <= x <= 0.005 * n as real
  }

  lemma WithinAdd(x: real, m: int, y: real, n: int)
    requires Within(x, m) && Within(y, n)
    ensures Within(x + y, m + n)
  {
  }
}

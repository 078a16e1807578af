/** Fractions in lowest terms. */
module Fractions {
  import opened Arith
  import opened BitReversal

  /** x/y is m/l. */
  predicate SameFraction(x: nat, y: nat, m: nat, l: nat) {
    x * l == m * y
  }

  /** No smaller denominator makes the same number. */
  ghost predicate InLowestTerms(m: nat, l: nat) {
    m > 0 && l > 0 && forall x: nat, y: nat | y > 0 && SameFraction(x, y, m, l) :: l <= y
  }

  lemma NoSmaller(n: nat, i: nat, num: nat, den: nat)
    requires InLowestTerms(num, den) && 0 < i < den
    ensures n * den != num * i
  {
    assert SameFraction(n, i, num, den) <==> n * den == num * i;
  }

  lemma PositiveTerms(num: nat, den: nat)
    requires InLowestTerms(num, den)
    ensures num > 0 && den > 0
  {
  }

  lemma NotBothEven(m: nat, l: nat)
    requires InLowestTerms(m, l)
    ensures m % 2 == 1 || l % 2 == 1
  {
    if m % 2 == 0 && l % 2 == 0 {
      assert m == 2 * (m / 2) && l == 2 * (l / 2);
      assert SameFraction(m / 2, l / 2, m, l);
    }
  }

  lemma DoubledLowest(m: nat, l: nat, num: nat, den: nat)
    requires InLowestTerms(m, l)
    requires if l % 2 == 0 then num == m && 2 * den == l else num == 2 * m && den == l
    ensures InLowestTerms(num, den)
  {
    forall x: nat, y: nat | y > 0 && SameFraction(x, y, num, den) ensures den <= y {
      if l % 2 == 0 {
        assert x * l == m * (2 * y) by { assert x * (2 * den) == 2 * (x * den); }
        assert SameFraction(x, 2 * y, m, l);
      } else {
        assert x * l == 2 * (m * y);
        EvenFactor(x, l, m * y);
        assert SameFraction(x / 2, y, m, l);
      }
    }
  }

  lemma EvenFactor(x: nat, l: nat, z: nat)
    requires l % 2 == 1 && x * l == 2 * z
    ensures x % 2 == 0 && (x / 2) * l == z
  {
    var k, j := x / 2, l / 2;
    assert x == 2 * k + x % 2 && l == 2 * j + 1;
    assert x * l == 2 * (x * j) + x;
    assert x == 2 * (z - x * j);
  }

  lemma HalvedLowest(m: nat, l: nat, num: nat, den: nat)
    requires InLowestTerms(m, l)
    requires if m % 2 == 0 then 2 * num == m && den == l else num == m && den == 2 * l
    ensures InLowestTerms(num, den)
  {
    forall x: nat, y: nat | y > 0 && SameFraction(x, y, num, den) ensures den <= y {
      if m % 2 == 0 {
        assert (2 * x) * l == m * y by { assert 2 * (x * den) == 2 * (num * y); }
        assert SameFraction(2 * x, y, m, l);
      } else {
        assert y * m == 2 * (x * l);
        EvenFactor(y, m, x * l);
        assert SameFraction(x, y / 2, m, l);
      }
    }
  }

  lemma FractionStays(x: nat, y: nat, m: nat, l: nat, a: nat, b: nat)
    requires SameFraction(x, y, m, l) && SameFraction(m, l, a, b) && l > 0
    ensures SameFraction(x, y, a, b)
  {
    assert (x * b) * l == (x * l) * b;
    assert (m * b) * y == (a * l) * y;
    assert (x * l) * b == (m * b) * y && (a * l) * y == (a * y) * l;
    hide *;
    CancelFactor(x * b, a * y, l);
    SameFractionIs(x, y, a, b);
  }

  lemma SameFractionIs(x: nat, y: nat, m: nat, l: nat)
    ensures SameFraction(x, y, m, l) <==> x * l == m * y
  {
  }

  lemma CancelFactor(a: int, b: int, l: nat)
    requires l > 0 && a * l == b * l
    ensures a == b
  {
    MulDistribRight(l, a - b, b);
    if a > b {
      MulLe(l, 1, a - b);
    }
    if b > a {
      MulDistribRight(l, b - a, a);
      MulLe(l, 1, b - a);
    }
  }

  /** Every fraction can be reduced. */
  lemma {:induction false} Reduce(a: nat, b: nat) returns (m: nat, l: nat)
    requires a > 0 && b > 0
    ensures InLowestTerms(m, l) && SameFraction(m, l, a, b) && m <= a && l <= b
    decreases b
  {
    if InLowestTerms(a, b) {
      m, l := a, b;
    } else {
      var x: nat, y: nat :| y > 0 && SameFraction(x, y, a, b) && y < b;
      SmallerTerms(x, y, a, b);
      m, l := Reduce(x, y);
      FractionStays(m, l, x, y, a, b);
    }
  }

  lemma SmallerTerms(x: nat, y: nat, a: nat, b: nat)
    requires a > 0 && 0 < y < b && x * b == a * y
    ensures 0 < x <= a
  {
    if x == 0 {
      MulLe(a, 1, y);
    }
    if x > a {
      MulLe(b, a, x);
      MulLe(a, y + 1, b);
      MulDistrib(a, y, 1);
    }
  }

  /** And brought below 4 by halvings, to at least 2 if there were any. */
  lemma {:induction false} Halvings(m: nat, l: nat) returns (s: nat, m': nat, l': nat)
    requires InLowestTerms(m, l)
    ensures InLowestTerms(m', l') && SameFraction(Pow2(s) * m', l', m, l)
    ensures if s == 0 then m' == m < 4 * l == 4 * l' else 2 * l' <= m' < 4 * l'
    ensures m >= 2 * l ==> m' >= 2 * l'
    decreases if m > 2 * l then m - 2 * l else 0
  {
    PositiveTerms(m, l);
    if m < 4 * l {
      s, m', l' := 0, m, l;
    } else {
      var a, b := if m % 2 == 0 then m / 2 else m, if m % 2 == 0 then l else 2 * l;
      HalvedLowest(m, l, a, b);
      s, m', l' := Halvings(a, b);
      HalvedOnce(Pow2(s), m', l', a, b, m, l);
      s := s + 1;
    }
  }

  lemma HalvedOnce(p: nat, x: nat, y: nat, a: nat, b: nat, m: nat, l: nat)
    requires SameFraction(p * x, y, a, b)
    requires if m % 2 == 0 then 2 * a == m && b == l else a == m && b == 2 * l
    ensures SameFraction((2 * p) * x, y, m, l)
  {
    assert (2 * p) * x == 2 * (p * x);
    if m % 2 == 0 {
      assert (2 * (p * x)) * l == 2 * ((p * x) * l) && m * y == 2 * (a * y);
    } else {
      assert (2 * (p * x)) * l == (p * x) * (2 * l);
    }
  }
}

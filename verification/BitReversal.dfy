/** Powers of two and reversal of the low bits of an index. */
module BitReversal {
  import opened Arith

  function Pow2(k: nat): (r: nat)
    ensures r > 0
  {
    if k == 0 then 1 else 2 * Pow2(k - 1)
  }

  /** The low q bits of x in reverse order. */
  function Rev(q: nat, x: nat): nat {
    if q == 0 then 0 else x % 2 * Pow2(q - 1) + Rev(q - 1, x / 2)
  }

  lemma Pow2Small()
    ensures Pow2(0) == 1 && Pow2(1) == 2 && Pow2(2) == 4 && Pow2(3) == 8
  {
    assert Pow2(0) == 1 && Pow2(1) == 2 * Pow2(0) && Pow2(2) == 2 * Pow2(1) && Pow2(3) == 2 * Pow2(2);
  }

  lemma Pow2Two(q: nat)
    requires q > 0
    ensures Pow2(q) == 2 * Pow2(q - 1)
  {
  }

  lemma {:induction false} Pow2Add(a: nat, b: nat)
    ensures Pow2(a + b) == Pow2(a) * Pow2(b)
  {
    if a > 0 {
      Pow2Add(a - 1, b);
      Pow2Two(a);
      Pow2Two(a + b);
      hide Pow2;
      MulAssoc3(2, Pow2(a - 1), Pow2(b));
    }
  }

  lemma {:induction false} Pow2Monotone(a: nat, b: nat)
    requires a <= b
    ensures Pow2(a) <= Pow2(b)
    ensures a < b ==> 2 * Pow2(a) <= Pow2(b)
    decreases b - a
  {
    if a + 1 < b {
      Pow2Monotone(a + 1, b);
    }
  }

  lemma {:induction false} Pow2Injective(a: nat, b: nat)
    requires Pow2(a) == Pow2(b)
    ensures a == b
  {
    if a < b {
      Pow2Monotone(a, b);
    } else if b < a {
      Pow2Monotone(b, a);
    }
  }

  lemma {:induction false} RevBound(q: nat, x: nat)
    ensures Rev(q, x) < Pow2(q)
  {
    if q > 0 {
      RevBound(q - 1, x / 2);
      RevUnfold(q, x);
      hide Rev;
    }
  }

  /** The last bit comes first. */
  lemma RevUnfold(q: nat, x: nat)
    requires q > 0
    ensures Rev(q, x) == Rev(q - 1, x / 2) + if x % 2 == 0 then 0 else Pow2(q - 1)
  {
    hide Pow2;
    assert x % 2 == 0 || x % 2 == 1;
  }

  lemma {:induction false} RevZero(q: nat)
    ensures Rev(q, 0) == 0
  {
    if q > 0 {
      RevZero(q - 1);
    }
  }

  /** Reversal of a concatenation: the halves swap places, each reversed. */
  lemma {:induction false} RevSplit(a: nat, b: nat, hi: nat, lo: nat)
    requires lo < Pow2(b)
    ensures Rev(a + b, hi * Pow2(b) + lo) == Rev(b, lo) * Pow2(a) + Rev(a, hi)
  {
    if b == 0 {
      assert Rev(0, lo) == 0;
      hide Rev;
    } else {
      assert Pow2(b) == 2 * Pow2(b - 1);
      RevUnfold(a + b, hi * Pow2(b) + lo);
      RevUnfold(b, lo);
      Pow2Add(b - 1, a);
      hide Pow2, Rev;
      Halves(hi, Pow2(b - 1), lo);
      RevSplit(a, b - 1, hi, lo / 2);
      MulDistribRight(Pow2(a), Rev(b - 1, lo / 2), Pow2(b - 1));
    }
  }

  lemma Halves(hi: nat, p: nat, lo: nat)
    ensures (hi * (2 * p) + lo) / 2 == hi * p + lo / 2
    ensures (hi * (2 * p) + lo) % 2 == lo % 2
  {
    MulAssoc3(hi, 2, p);
  }

  lemma {:induction false} RevInvolution(q: nat, x: nat)
    requires x < Pow2(q)
    ensures Rev(q, Rev(q, x)) == x
  {
    if q > 0 {
      assert Pow2(q) == 2 * Pow2(q - 1);
      assert Pow2(1) == 2 * Pow2(0) == 2;
      RevUnfold(q, x);
      RevSmall(x % 2);
      hide Pow2, Rev;
      RevInvolution(q - 1, x / 2);
      RevBound(q - 1, x / 2);
      RevSplit(1, q - 1, x % 2, Rev(q - 1, x / 2));
    }
  }

  lemma RevInjective(q: nat, x: nat, y: nat)
    requires x < Pow2(q) && y < Pow2(q) && Rev(q, x) == Rev(q, y)
    ensures x == y
  {
    RevInvolution(q, x);
    RevInvolution(q, y);
  }

  /** Reversing a short index within a longer word. */
  lemma RevExtend(q: nat, extra: nat, x: nat)
    requires x < Pow2(q)
    ensures Rev(q + extra, x) == Rev(q, x) * Pow2(extra)
  {
    RevSplit(extra, q, 0, x);
    RevZero(extra);
  }

  /** Two-bit reversal swaps 1 and 2. */
  function Rev2(d: nat): nat {
    if d == 1 then 2 else if d == 2 then 1 else d
  }

  lemma RevSmall(d: nat)
    ensures d < 2 ==> Rev(1, d) == d
    ensures d < 4 ==> Rev(2, d) == Rev2(d)
  {
    assert Rev(1, d) == d % 2 * Pow2(0) + Rev(0, d / 2);
    assert Rev(2, d) == d % 2 * Pow2(1) + Rev(1, d / 2);
    assert Rev(1, d / 2) == d / 2 % 2 * Pow2(0) + Rev(0, d / 2 / 2);
  }
}

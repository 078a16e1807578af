/** The interleaved layout of fft4g.c: element p of a complex sequence is held in the two
    neighbouring cells 2p (real part) and 2p+1 (imaginary part) of an array of reals. */
module FftView {
  import opened Complexes

  function View(s: seq<real>): (v: seq<Complex>)
    requires |s| % 2 == 0
    ensures |v| == |s| / 2
    ensures forall p: nat | p < |v| :: v[p] == Complex(s[2 * p], s[2 * p + 1])
  {
    seq(|s| / 2, p requires 0 <= p < |s| / 2 => Complex(s[2 * p], s[2 * p + 1]))
  }

  /** The first n cells of a, as complex numbers. */
  function Head(a: array<real>, n: nat): (v: seq<Complex>)
    requires n % 2 == 0 && n <= a.Length
    reads a
    ensures |v| == n / 2
  {
    View(a[..n])
  }

  /** Entry p, or zero beyond the end. */
  function At(s: seq<Complex>, p: nat): Complex {
    if p < |s| then s[p] else ZERO
  }

  function Image(cj: bool, z: Complex): Complex {
    if cj then Conj(z) else z
  }

  function ConjAll(s: seq<Complex>): (r: seq<Complex>)
    ensures |r| == |s|
    ensures forall p: nat | p < |s| :: r[p] == Conj(s[p])
  {
    seq(|s|, p requires 0 <= p < |s| => Conj(s[p]))
  }

  lemma ConjAllTwice(s: seq<Complex>)
    ensures ConjAll(ConjAll(s)) == s
  {
    forall p: nat | p < |s| ensures Conj(Conj(s[p])) == s[p] {
      ConjLaws(s[p], s[p]);
    }
  }

  /** The layout loses nothing. */
  lemma ViewInjective(s: seq<real>, t: seq<real>)
    requires |s| % 2 == 0 && |s| == |t| && View(s) == View(t)
    ensures s == t
  {
    forall i | 0 <= i < |s| ensures s[i] == t[i] {
      var p := i / 2;
      assert View(s)[p] == View(t)[p];
    }
  }

  /** Stores one complex number. */
  method SetPair(a: array<real>, j: nat, re: real, im: real, ghost n: nat)
    requires n % 2 == 0 && n <= a.Length && j % 2 == 0 && j < n
    modifies a
    ensures Head(a, n) == old(Head(a, n))[j / 2 := Complex(re, im)]
    ensures a[n..] == old(a[n..])
  {
    ghost var was, s := Head(a, n), a[..n];
    a[j], a[j + 1] := re, im;
    assert a[..n] == s[j := re][j + 1 := im];
    ViewUpdate(s, j / 2, re, im);
  }

  lemma ViewUpdate(s: seq<real>, p: nat, re: real, im: real)
    requires |s| % 2 == 0 && p < |s| / 2
    ensures View(s[2 * p := re][2 * p + 1 := im]) == View(s)[p := Complex(re, im)]
  {
  }

  lemma HeadAt(a: array<real>, n: nat, j: nat)
    requires n % 2 == 0 && n <= a.Length && j % 2 == 0 && j < n
    ensures Head(a, n)[j / 2] == Complex(a[j], a[j + 1])
  {
    assert j == 2 * (j / 2);
  }
}

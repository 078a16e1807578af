/** bitrv2 and bitrv2conj (fft4g.c, lines 712-920): the in-place reordering passes. */
module FftReorder {
  import opened Arith
  import opened Complexes
  import opened BitReversal
  import opened FftView

  /** What both passes compute: entry Rev(q, p) of the old data, conjugated if cj. */
  function Reordered(cj: bool, q: nat, s: seq<Complex>): (r: seq<Complex>)
    requires |s| == Pow2(q)
    ensures |r| == |s|
  {
    seq(|s|, p requires 0 <= p < |s| => RevBound(q, p); Image(cj, s[Rev(q, p)]))
  }

  /** The reordering undoes itself. */
  lemma ReorderedTwice(cj: bool, q: nat, s: seq<Complex>)
    requires |s| == Pow2(q)
    ensures Reordered(cj, q, Reordered(cj, q, s)) == s
  {
    var r := Reordered(cj, q, s);
    forall p: nat | p < |s| ensures Reordered(cj, q, r)[p] == s[p] {
      RevBound(q, p);
      RevInvolution(q, p);
      ConjLaws(s[p], s[p]);
    }
  }

  /** bitrv2conj is bitrv2 followed, or preceded, by conjugation. */
  lemma ReorderedConj(q: nat, s: seq<Complex>)
    requires |s| == Pow2(q)
    ensures Reordered(true, q, s) == ConjAll(Reordered(false, q, s))
    ensures Reordered(true, q, s) == Reordered(false, q, ConjAll(s))
  {
    forall p: nat | p < |s|
      ensures Reordered(true, q, s)[p] == ConjAll(Reordered(false, q, s))[p]
      ensures Reordered(true, q, s)[p] == Reordered(false, q, ConjAll(s))[p]
    {
      RevBound(q, p);
    }
  }

  // ---- positions: an index is read as (high bits) (one or two middle bits) (low bits) ----

  /** Low bits x, middle digit d, high bits the reversal of y; e middle bits. */
  function Pos(b: nat, e: nat, x: nat, d: nat, y: nat): nat {
    x + Pow2(b) * (d + Pow2(e) * Rev(b, y))
  }

  ghost predicate InRange(b: nat, e: nat, x: nat, d: nat, y: nat) {
    x < Pow2(b) && d < Pow2(e) && y < Pow2(b)
  }

  /** The middle digit after reversal. */
  function Mid(e: nat, d: nat): nat {
    if e == 2 then Rev2(d) else d
  }

  lemma PosBound(b: nat, e: nat, x: nat, d: nat, y: nat)
    requires InRange(b, e, x, d, y)
    ensures Pos(b, e, x, d, y) < Pow2(b + e + b)
  {
    RevBound(b, y);
    DigitsBound(Pow2(e), Pow2(b), d, Rev(b, y));
    DigitsBound(Pow2(b), Pow2(e) * Pow2(b), x, d + Pow2(e) * Rev(b, y));
    Pow2Sizes(b, e);
  }

  lemma Pow2Sizes(b: nat, e: nat)
    ensures Pow2(b + e) == Pow2(b) * Pow2(e)
    ensures Pow2(b + e + b) == Pow2(b) * (Pow2(e) * Pow2(b))
  {
    Pow2Add(b, e);
    Pow2Add(b, e + b);
    Pow2Add(e, b);
    assert b + e + b == b + (e + b);
  }

  lemma PosInjective(b: nat, e: nat, x: nat, d: nat, y: nat, x': nat, d': nat, y': nat)
    requires InRange(b, e, x, d, y) && InRange(b, e, x', d', y')
    requires Pos(b, e, x, d, y) == Pos(b, e, x', d', y')
    ensures x == x' && d == d' && y == y'
  {
    DigitsUnique(Pow2(b), x, d + Pow2(e) * Rev(b, y), x', d' + Pow2(e) * Rev(b, y'));
    DigitsUnique(Pow2(e), d, Rev(b, y), d', Rev(b, y'));
    RevInjective(b, y, y');
  }

  /** Every index has such a reading. */
  lemma PosSurjective(b: nat, e: nat, p: nat) returns (x: nat, d: nat, y: nat)
    requires p < Pow2(b + e + b)
    ensures InRange(b, e, x, d, y) && Pos(b, e, x, d, y) == p
  {
    hide Pow2, Rev;
    Pow2Sizes(b, e);
    var h;
    x, d, h := Decompose(Pow2(b), Pow2(e), p);
    y := Rev(b, h);
    RevBound(b, h);
    RevInvolution(b, h);
  }

  lemma Decompose(m: nat, s: nat, p: nat) returns (x: nat, d: nat, h: nat)
    requires 0 < m && 0 < s && p < m * (s * m)
    ensures x < m && d < s && h < m && x + m * (d + s * h) == p
  {
    QuotientBound(m, s * m, p);
    QuotientBound(s, m, p / m);
    x, d, h := p % m, p / m % s, p / m / s;
    assert d + s * h == p / m;
  }

  /** Reversing a position exchanges its two ends. */
  lemma RevPos(b: nat, e: nat, x: nat, d: nat, y: nat)
    requires InRange(b, e, x, d, y) && (e == 1 || e == 2)
    ensures Rev(b + e + b, Pos(b, e, x, d, y)) == Pos(b, e, y, Mid(e, d), x)
  {
    hide Pow2, Rev;
    var m, s, r := Pow2(b), Pow2(e), Rev(b, y);
    Pow2Sizes(b, e);
    RevSplit(b + e, b, r * s + d, x);
    RevSplit(b, e, r, d);
    RevInvolution(b, y);
    MidIsRev(e, d);
    Regroup(r, m, s, d, x);
    Regroup(Rev(b, x), m, s, Mid(e, d), y);
  }

  lemma MidIsRev(e: nat, d: nat)
    requires d < Pow2(e) && (e == 1 || e == 2)
    ensures Rev(e, d) == Mid(e, d)
  {
    RevSmall(d);
    assert Pow2(0) == 1 && Pow2(1) == 2 * Pow2(0) && Pow2(2) == 2 * Pow2(1);
  }

  lemma Regroup(r: int, m: int, s: int, d: int, x: int)
    ensures r * (m * s) + (d * m + x) == x + m * (d + s * r)
    ensures (r * s + d) * m + x == x + m * (d + s * r)
  {
  }

  // ---- the state of the double loop over k and j ----

  function Exchange(cj: bool, s: seq<Complex>, p: nat, q: nat): (r: seq<Complex>)
    requires p < |s| && q < |s|
    ensures |r| == |s|
  {
    s[p := Image(cj, s[q])][q := Image(cj, s[p])]
  }

  function Flip(cj: bool, s: seq<Complex>, p: nat): (r: seq<Complex>)
    requires p < |s|
    ensures |r| == |s|
  {
    s[p := Image(cj, s[p])]
  }

  /** Has the entry with ends x and y been dealt with, when the loops stand at k and j and
      the first c exchanges of that iteration are done? */
  ghost predicate Done(e: nat, k: nat, j: nat, c: nat, x: nat, d: nat, y: nat) {
    var hi, lo := if x < y then y else x, if x < y then x else y;
    || hi < k
    || (hi == k && lo < j)
    || (x == j && y == k && d < c)
    || (x == k && y == j && Mid(e, d) < c)
  }

  ghost predicate EntryOk(cj: bool, b: nat, e: nat, s: seq<Complex>, o: seq<Complex>,
                          k: nat, j: nat, c: nat, x: nat, d: nat, y: nat)
  {
    At(s, Pos(b, e, x, d, y)) ==
    if Done(e, k, j, c, x, d, y) then Image(cj, At(o, Pos(b, e, y, Mid(e, d), x))) else At(o, Pos(b, e, x, d, y))
  }

  ghost predicate Progress(cj: bool, b: nat, e: nat, s: seq<Complex>, o: seq<Complex>, k: nat, j: nat, c: nat) {
    && (e == 1 || e == 2)
    && |s| == |o| == Pow2(b + e + b)
    && forall x: nat, d: nat, y: nat | InRange(b, e, x, d, y) :: EntryOk(cj, b, e, s, o, k, j, c, x, d, y)
  }

  lemma MidRange(e: nat, d: nat)
    requires (e == 1 || e == 2) && d < Pow2(e)
    ensures Mid(e, d) < Pow2(e) && Mid(e, Mid(e, d)) == d
  {
    assert Pow2(0) == 1 && Pow2(1) == 2 * Pow2(0) && Pow2(2) == 2 * Pow2(1);
  }

  /** Same position, or different readings. */
  lemma PosDiffers(b: nat, e: nat, x: nat, d: nat, y: nat, x': nat, d': nat, y': nat)
    requires InRange(b, e, x, d, y) && InRange(b, e, x', d', y')
    ensures (x, d, y) != (x', d', y') ==> Pos(b, e, x, d, y) != Pos(b, e, x', d', y')
  {
    if Pos(b, e, x, d, y) == Pos(b, e, x', d', y') {
      PosInjective(b, e, x, d, y, x', d', y');
    }
  }

  /** One exchange of the inner loop. */
  lemma ExchangeStep(cj: bool, b: nat, e: nat, s: seq<Complex>, o: seq<Complex>, k: nat, j: nat, c: nat)
    requires Progress(cj, b, e, s, o, k, j, c)
    requires j < k < Pow2(b) && c < Pow2(e)
    ensures Pos(b, e, j, c, k) < |s| && Pos(b, e, k, Mid(e, c), j) < |s|
    ensures Progress(cj, b, e, Exchange(cj, s, Pos(b, e, j, c, k), Pos(b, e, k, Mid(e, c), j)), o, k, j, c + 1)
  {
    hide Pow2, Rev, Pos;
    MidRange(e, c);
    PosBound(b, e, j, c, k);
    PosBound(b, e, k, Mid(e, c), j);
    var p, q := Pos(b, e, j, c, k), Pos(b, e, k, Mid(e, c), j);
    var t := Exchange(cj, s, p, q);
    assert EntryOk(cj, b, e, s, o, k, j, c, j, c, k) && EntryOk(cj, b, e, s, o, k, j, c, k, Mid(e, c), j);
    forall x: nat, d: nat, y: nat | InRange(b, e, x, d, y)
      ensures EntryOk(cj, b, e, t, o, k, j, c + 1, x, d, y)
    {
      assert EntryOk(cj, b, e, s, o, k, j, c, x, d, y);
      MidRange(e, d);
      PosBound(b, e, x, d, y);
      PosDiffers(b, e, x, d, y, j, c, k);
      PosDiffers(b, e, x, d, y, k, Mid(e, c), j);
    }
  }

  /** All exchanges of one iteration done: on to the next j. */
  lemma NextJ(cj: bool, b: nat, e: nat, s: seq<Complex>, o: seq<Complex>, k: nat, j: nat)
    requires Progress(cj, b, e, s, o, k, j, Pow2(e)) && j < k
    ensures Progress(cj, b, e, s, o, k, j + 1, 0)
  {
    hide Pow2, Rev, Pos;
    forall x: nat, d: nat, y: nat | InRange(b, e, x, d, y)
      ensures EntryOk(cj, b, e, s, o, k, j + 1, 0, x, d, y)
    {
      assert EntryOk(cj, b, e, s, o, k, j, Pow2(e), x, d, y);
      MidRange(e, d);
    }
  }

  /** The diagonal entries of row k: with one middle bit they stay where they are, with two the
      middle ones change places. */
  function Diagonal(cj: bool, b: nat, e: nat, s: seq<Complex>, k: nat): (r: seq<Complex>)
    requires (e == 1 || e == 2) && |s| == Pow2(b + e + b) && k < Pow2(b)
    ensures |r| == |s|
  {
    Pow2Small();
    PosBound(b, e, k, 0, k);
    PosBound(b, e, k, 1, k);
    var t := Flip(cj, s, Pos(b, e, k, 0, k));
    if e == 1 then
      Flip(cj, t, Pos(b, e, k, 1, k))
    else
      PosBound(b, e, k, 2, k);
      PosBound(b, e, k, 3, k);
      Flip(cj, Exchange(cj, t, Pos(b, e, k, 1, k), Pos(b, e, k, 2, k)), Pos(b, e, k, 3, k))
  }

  /** The diagonal done: on to the next k. */
  lemma NextK(cj: bool, b: nat, e: nat, s: seq<Complex>, o: seq<Complex>, k: nat)
    requires Progress(cj, b, e, s, o, k, k, 0) && k < Pow2(b)
    ensures |s| == Pow2(b + e + b)
    ensures Progress(cj, b, e, Diagonal(cj, b, e, s, k), o, k + 1, 0, 0)
  {
    var t := Diagonal(cj, b, e, s, k);
    Pow2Small();
    hide Pow2, Rev, Pos;
    forall x: nat, d: nat, y: nat | InRange(b, e, x, d, y)
      ensures EntryOk(cj, b, e, t, o, k + 1, 0, 0, x, d, y)
    {
      assert EntryOk(cj, b, e, s, o, k, k, 0, x, d, y);
      MidRange(e, d);
      PosBound(b, e, x, d, y);
      DiagonalEntry(cj, b, e, s, k, x, d, y);
      if x == y == k {
        assert EntryOk(cj, b, e, s, o, k, k, 0, k, Mid(e, d), k);
      }
    }
  }

  lemma DiagonalEntry(cj: bool, b: nat, e: nat, s: seq<Complex>, k: nat, x: nat, d: nat, y: nat)
    requires (e == 1 || e == 2) && |s| == Pow2(b + e + b) && k < Pow2(b) && InRange(b, e, x, d, y)
    ensures At(Diagonal(cj, b, e, s, k), Pos(b, e, x, d, y)) ==
            if x == y == k then Image(cj, At(s, Pos(b, e, k, Mid(e, d), k))) else At(s, Pos(b, e, x, d, y))
  {
    Pow2Small();
    hide Pow2, Rev, Pos;
    MidRange(e, d);
    PosBound(b, e, x, d, y);
    PosBound(b, e, k, 0, k);
    PosBound(b, e, k, 1, k);
    PosDiffers(b, e, x, d, y, k, 0, k);
    PosDiffers(b, e, x, d, y, k, 1, k);
    PosDiffers(b, e, k, 0, k, k, 1, k);
    if e == 2 {
      PosBound(b, e, k, 2, k);
      PosBound(b, e, k, 3, k);
      PosDiffers(b, e, x, d, y, k, 2, k);
      PosDiffers(b, e, x, d, y, k, 3, k);
      PosDiffers(b, e, k, 0, k, k, 2, k);
      PosDiffers(b, e, k, 0, k, k, 3, k);
      PosDiffers(b, e, k, 1, k, k, 2, k);
      PosDiffers(b, e, k, 1, k, k, 3, k);
      PosDiffers(b, e, k, 2, k, k, 3, k);
    }
  }

  lemma Start(cj: bool, b: nat, e: nat, o: seq<Complex>)
    requires (e == 1 || e == 2) && |o| == Pow2(b + e + b)
    ensures Progress(cj, b, e, o, o, 0, 0, 0)
  {
    hide Pow2, Rev, Pos;
    forall x: nat, d: nat, y: nat | InRange(b, e, x, d, y)
      ensures EntryOk(cj, b, e, o, o, 0, 0, 0, x, d, y)
    {
    }
  }

  /** All rows done: the data is reordered. */
  lemma Finish(cj: bool, b: nat, e: nat, s: seq<Complex>, o: seq<Complex>)
    requires Progress(cj, b, e, s, o, Pow2(b), 0, 0)
    ensures s == Reordered(cj, b + e + b, o)
  {
    hide Pow2, Rev, Pos;
    forall p: nat | p < |s|
      ensures s[p] == Reordered(cj, b + e + b, o)[p]
    {
      var x, d, y := PosSurjective(b, e, p);
      assert EntryOk(cj, b, e, s, o, Pow2(b), 0, 0, x, d, y);
      RevPos(b, e, x, d, y);
      RevBound(b + e + b, p);
    }
  }

  // ---- the passes themselves ----

  /** Exact condition for the doubling loop to stay inside its table: bitrv2 declares 1024
      entries and is safe up to n == 2^23, bitrv2conj declares 512 and is safe up to n == 2^21. */
  lemma TableFits(q: nat)
    requires 2 <= q
    ensures Pow2((q - 1) / 2) <= 1024 <==> 2 * Pow2(q) <= Pow2(23)
    ensures Pow2((q - 1) / 2) <= 512 <==> 2 * Pow2(q) <= Pow2(21)
  {
    assert Pow2(q + 1) == 2 * Pow2(q);
    assert Pow2(10) == 1024 && Pow2(9) == 512 by {
      Pow2Small();
      Pow2Add(3, 3);
      Pow2Add(6, 3);
      assert Pow2(10) == 2 * Pow2(9);
    }
    var b := (q - 1) / 2;
    if b <= 9 { Pow2Monotone(b, 9); } else { Pow2Monotone(9, b); }
    if b <= 10 { Pow2Monotone(b, 10); } else { Pow2Monotone(10, b); }
    if q <= 20 { Pow2Monotone(q + 1, 21); } else { Pow2Monotone(21, q + 1); }
    if q <= 22 { Pow2Monotone(q + 1, 23); } else { Pow2Monotone(23, q + 1); }
  }

  /** Lines 718-727 and 819-828: the entries for m, scaled by l, from the reversals of the indices. */
  method ReversalTable(n: nat, ip: array<nat>, ghost q: nat) returns (m: nat, l: nat, ghost b: nat, ghost e: nat)
    requires 2 <= q && n == 2 * Pow2(q)
    requires Pow2((q - 1) / 2) <= ip.Length
    modifies ip
    ensures b == (q - 1) / 2 && e == q - 2 * b && (e == 1 || e == 2)
    ensures m == Pow2(b) <= ip.Length && l == 2 * Pow2(b + e)
    ensures m * 8 == l <==> e == 2
    ensures TableBuilt(ip, b, e)
  {
    ghost var top := (q - 1) / 2;
    Pow2Monotone(0, top);
    Pow2Small();
    RevZero(0);
    hide Pow2, Rev;
    ip[0] := 0;
    l := n;
    m := 1;
    b := 0;
    while m * 8 < l
      invariant b <= top && m == Pow2(b) <= Pow2(top) && l == 2 * Pow2(q - b)
      invariant forall k: nat | k < m :: ip[k] == Rev(b, k) * l
    {
      Doubling(q, b);
      l := l / 2;
      DoubleTable(ip, m, l, b);
      m := m * 2;
      b := b + 1;
    }
    LastDoubling(q, b);
    e := q - 2 * b;
    assert q - b == b + e;
    forall k: nat | k < m ensures ip[k] == 2 * Pos(b, e, 0, 0, k) {
      EntryPos(b, e, k, l, ip[k]);
    }
  }

  /** One doubling, lines 723-725: the entries so far were scaled by 2l. */
  method DoubleTable(ip: array<nat>, m: nat, l: nat, ghost b: nat)
    requires m == Pow2(b) && 2 * m <= ip.Length
    requires forall k: nat | k < m :: ip[k] == Rev(b, k) * (2 * l)
    modifies ip
    ensures forall k: nat | k < 2 * m :: ip[k] == Rev(b + 1, k) * l
  {
    hide Pow2, Rev;
    ghost var was := ip[..m];
    for j := 0 to m
      invariant ip[..m] == was
      invariant forall k: nat | k < j :: ip[m + k] == was[k] + l
    {
      ip[m + j] := ip[j] + l;
    }
    forall k: nat | k < 2 * m ensures ip[k] == Rev(b + 1, k) * l {
      var i := if k < m then k else k - m;
      DoubledEntry(b, i, l);
      assert ip[..m][i] == was[i];
      assert k >= m ==> ip[m + i] == was[i] + l;
    }
  }

  lemma EntryPos(b: nat, e: nat, k: nat, l: nat, v: nat)
    requires l == 2 * Pow2(b + e) && v == Rev(b, k) * l
    ensures v == 2 * Pos(b, e, 0, 0, k)
  {
    Pow2Sizes(b, e);
    hide Pow2, Rev;
    var r, m, s := Rev(b, k), Pow2(b), Pow2(e);
    assert r * (2 * (m * s)) == 2 * (0 + m * (0 + s * r));
  }

  lemma Doubling(q: nat, b: nat)
    requires b <= (q - 1) / 2 && 2 <= q && Pow2(b) * 8 < 2 * Pow2(q - b)
    ensures b + 1 <= (q - 1) / 2 && 2 * Pow2(b) == Pow2(b + 1) <= Pow2((q - 1) / 2)
    ensures Pow2(q - b) == 2 * Pow2(q - (b + 1))
  {
    Pow2Small();
    Pow2Add(b, 3);
    assert Pow2(q - b + 1) == 2 * Pow2(q - b);
    if q - b + 1 <= b + 3 {
      Pow2Monotone(q - b + 1, b + 3);
    }
    Pow2Monotone(b + 1, (q - 1) / 2);
  }

  lemma LastDoubling(q: nat, b: nat)
    requires 2 <= q && b <= (q - 1) / 2 && Pow2(b) * 8 >= 2 * Pow2(q - b)
    ensures b == (q - 1) / 2 && (q == 2 * b + 1 || q == 2 * b + 2)
    ensures Pow2(b) * 8 == 2 * Pow2(q - b) <==> q == 2 * b + 2
  {
    Pow2Small();
    Pow2Add(b, 3);
    assert Pow2(q - b + 1) == 2 * Pow2(q - b);
    if b + 3 < q - b + 1 {
      Pow2Monotone(b + 3, q - b + 1);
    } else if b + 3 > q - b + 1 {
      Pow2Monotone(q - b + 1, b + 3);
    }
  }

  lemma DoubledEntry(b: nat, k: nat, l: nat)
    requires k < Pow2(b)
    ensures Rev(b + 1, k) * l == Rev(b, k) * (2 * l)
    ensures Rev(b + 1, Pow2(b) + k) * l == Rev(b, k) * (2 * l) + l
  {
    hide Pow2, Rev;
    RevDoubled(b, k);
    Twice(Rev(b, k), l);
  }

  lemma RevDoubled(b: nat, k: nat)
    requires k < Pow2(b)
    ensures Rev(b + 1, k) == 2 * Rev(b, k)
    ensures Rev(b + 1, Pow2(b) + k) == 2 * Rev(b, k) + 1
  {
    Pow2Small();
    hide Pow2;
    RevSmall(1);
    RevZero(1);
    hide Rev;
    RevSplit(1, b, 0, k);
    RevSplit(1, b, 1, k);
  }

  lemma Twice(r: int, l: int)
    ensures (2 * r) * l == r * (2 * l)
    ensures (2 * r + 1) * l == r * (2 * l) + l
  {
  }

  /** Exchange of two complex entries, each conjugated if cj: one block of either pass. */
  method SwapPairs(cj: bool, a: array<real>, j1: nat, k1: nat, ghost n: nat)
    requires n % 2 == 0 && n <= a.Length
    requires j1 % 2 == 0 && k1 % 2 == 0 && j1 < n && k1 < n && j1 != k1
    modifies a
    ensures Head(a, n) == Exchange(cj, old(Head(a, n)), j1 / 2, k1 / 2)
    ensures a[n..] == old(a[n..])
  {
    var xr, xi := a[j1], if cj then -a[j1 + 1] else a[j1 + 1];
    var yr, yi := a[k1], if cj then -a[k1 + 1] else a[k1 + 1];
    HeadAt(a, n, j1);
    HeadAt(a, n, k1);
    SetPair(a, j1, yr, yi, n);
    SetPair(a, k1, xr, xi, n);
  }

  method FlipPair(a: array<real>, k1: nat, ghost n: nat)
    requires n % 2 == 0 && n <= a.Length && k1 % 2 == 0 && k1 < n
    modifies a
    ensures Head(a, n) == Flip(true, old(Head(a, n)), k1 / 2)
    ensures a[n..] == old(a[n..])
  {
    HeadAt(a, n, k1);
    SetPair(a, k1, a[k1], -a[k1 + 1], n);
  }

  /** Positions in terms of the table entry of their high bits and of the stride m. */
  lemma PosStride(b: nat, e: nat, x: nat, y: nat)
    ensures Pos(b, e, x, 0, y) == x + Pos(b, e, 0, 0, y)
    ensures Pos(b, e, x, 1, y) == Pos(b, e, x, 0, y) + Pow2(b)
    ensures Pos(b, e, x, 2, y) == Pos(b, e, x, 0, y) + 2 * Pow2(b)
    ensures Pos(b, e, x, 3, y) == Pos(b, e, x, 0, y) + 3 * Pow2(b)
  {
    hide Pow2, Rev;
    var m, h := Pow2(b), Pow2(e) * Rev(b, y);
    MulDistrib(m, 1, h);
    MulDistrib(m, 2, h);
    MulDistrib(m, 3, h);
  }

  /** One exchange of the inner loop. */
  lemma ExchangeCells(cj: bool, b: nat, e: nat, s: seq<Complex>, o: seq<Complex>, k: nat, j: nat, c: nat)
    requires Progress(cj, b, e, s, o, k, j, c)
    requires j < k < Pow2(b) && c < Pow2(e)
    ensures var p, q := Pos(b, e, j, c, k), Pos(b, e, k, Mid(e, c), j);
            && p != q && p < |s| && q < |s|
            && Progress(cj, b, e, Exchange(cj, s, p, q), o, k, j, c + 1)
  {
    MidRange(e, c);
    hide Pow2, Rev, Pos;
    PosDiffers(b, e, j, c, k, k, Mid(e, c), j);
    ExchangeStep(cj, b, e, s, o, k, j, c);
  }

  lemma DiagonalCells(b: nat, e: nat, k: nat)
    requires (e == 1 || e == 2) && k < Pow2(b)
    ensures forall d: nat | d < Pow2(e) :: Pos(b, e, k, d, k) < Pow2(b + e + b)
  {
    forall d: nat | d < Pow2(e) ensures Pos(b, e, k, d, k) < Pow2(b + e + b) {
      PosBound(b, e, k, d, k);
    }
  }

  /** One block of the inner loop. */
  method ExchangeAt(cj: bool, n: nat, a: array<real>, j1: nat, k1: nat,
                    ghost b: nat, ghost e: nat, ghost o: seq<Complex>, ghost k: nat, ghost j: nat, ghost c: nat)
    requires n % 2 == 0 && n <= a.Length
    requires Progress(cj, b, e, Head(a, n), o, k, j, c) && j < k < Pow2(b) && c < Pow2(e)
    requires j1 == 2 * Pos(b, e, j, c, k) && k1 == 2 * Pos(b, e, k, Mid(e, c), j)
    modifies a
    ensures Progress(cj, b, e, Head(a, n), o, k, j, c + 1)
    ensures a[n..] == old(a[n..])
  {
    hide Pow2, Rev, Pos, Progress, Exchange, Head, View;
    ExchangeCells(cj, b, e, Head(a, n), o, k, j, c);
    SwapPairs(cj, a, j1, k1, n);
  }

  /** What the table holds once built. */
  ghost predicate TableBuilt(ip: array<nat>, b: nat, e: nat)
    reads ip
  {
    && (e == 1 || e == 2)
    && Pow2(b) <= ip.Length
    && forall k: nat | k < Pow2(b) :: ip[k] == 2 * Pos(b, e, 0, 0, k)
  }

  /** Row k of the loop nest with two middle bits: lines 731-772 and 832-873. */
  method ExchangeRow4(cj: bool, n: nat, a: array<real>, ip: array<nat>, m: nat, k: nat,
                      ghost b: nat, ghost o: seq<Complex>)
    requires n % 2 == 0 && n <= a.Length
    requires TableBuilt(ip, b, 2) && m == Pow2(b) && k < m
    requires Progress(cj, b, 2, Head(a, n), o, k, 0, 0)
    modifies a
    ensures Progress(cj, b, 2, Head(a, n), o, k, k, 0)
    ensures a[n..] == old(a[n..])
  {
    Pow2Small();
    hide Pow2, Rev, Pos, Progress, Exchange, Head, View;
    var m2 := 2 * m;
    for j := 0 to k
      invariant Progress(cj, b, 2, Head(a, n), o, k, j, 0)
      invariant a[n..] == old(a[n..])
    {
      PosStride(b, 2, j, k);
      PosStride(b, 2, k, j);
      var j1, k1 := 2 * j + ip[k], 2 * k + ip[j];
      ExchangeAt(cj, n, a, j1, k1, b, 2, o, k, j, 0);
      j1, k1 := j1 + m2, k1 + 2 * m2;
      ExchangeAt(cj, n, a, j1, k1, b, 2, o, k, j, 1);
      j1, k1 := j1 + m2, k1 - m2;
      ExchangeAt(cj, n, a, j1, k1, b, 2, o, k, j, 2);
      j1, k1 := j1 + m2, k1 + 2 * m2;
      ExchangeAt(cj, n, a, j1, k1, b, 2, o, k, j, 3);
      NextJ(cj, b, 2, Head(a, n), o, k, j);
    }
  }

  /** Row k of the loop nest with one middle bit: lines 786-807 and 893-914. */
  method ExchangeRow2(cj: bool, n: nat, a: array<real>, ip: array<nat>, m: nat, k: nat,
                      ghost b: nat, ghost o: seq<Complex>)
    requires n % 2 == 0 && n <= a.Length
    requires TableBuilt(ip, b, 1) && m == Pow2(b) && k < m
    requires Progress(cj, b, 1, Head(a, n), o, k, 0, 0)
    modifies a
    ensures Progress(cj, b, 1, Head(a, n), o, k, k, 0)
    ensures a[n..] == old(a[n..])
  {
    Pow2Small();
    hide Pow2, Rev, Pos, Progress, Exchange, Head, View;
    var m2 := 2 * m;
    for j := 0 to k
      invariant Progress(cj, b, 1, Head(a, n), o, k, j, 0)
      invariant a[n..] == old(a[n..])
    {
      PosStride(b, 1, j, k);
      PosStride(b, 1, k, j);
      var j1, k1 := 2 * j + ip[k], 2 * k + ip[j];
      ExchangeAt(cj, n, a, j1, k1, b, 1, o, k, j, 0);
      j1, k1 := j1 + m2, k1 + m2;
      ExchangeAt(cj, n, a, j1, k1, b, 1, o, k, j, 1);
      NextJ(cj, b, 1, Head(a, n), o, k, j);
    }
  }

  lemma DiagonalIs(b: nat, e: nat, s: seq<Complex>, k: nat)
    requires |s| == Pow2(b + e + b) && k < Pow2(b) && (e == 1 || e == 2)
    requires forall d: nat | d < Pow2(e) :: Pos(b, e, k, d, k) < |s|
    ensures e == 1 ==> Pow2(e) == 2 && Diagonal(false, b, e, s, k) == s
    ensures e == 1 ==> Diagonal(true, b, e, s, k) == Flip(true, Flip(true, s, Pos(b, e, k, 0, k)), Pos(b, e, k, 1, k))
    ensures e == 2 ==> Pow2(e) == 4
    ensures e == 2 ==> Diagonal(false, b, e, s, k) == Exchange(false, s, Pos(b, e, k, 1, k), Pos(b, e, k, 2, k))
    ensures e == 2 ==>
              var p1, p2 := Pos(b, e, k, 1, k), Pos(b, e, k, 2, k);
              Diagonal(true, b, e, s, k) ==
              Flip(true, Exchange(true, Flip(true, s, Pos(b, e, k, 0, k)), p1, p2), Pos(b, e, k, 3, k))
  {
    Pow2Small();
  }

  lemma Pow2Positive(b: nat)
    ensures Pow2(b) >= 1 && Pow2(2) == 4
  {
    Pow2Small();
  }

  /** Lines 773-782. */
  method DiagonalRow4(n: nat, a: array<real>, ip: array<nat>, m: nat, k: nat, ghost b: nat, ghost o: seq<Complex>)
    requires n % 2 == 0 && n <= a.Length
    requires TableBuilt(ip, b, 2) && m == Pow2(b) && k < m
    requires Progress(false, b, 2, Head(a, n), o, k, k, 0)
    modifies a
    ensures Progress(false, b, 2, Head(a, n), o, k + 1, 0, 0)
    ensures a[n..] == old(a[n..])
  {
    hide Pow2, Rev, Pos, Progress, Exchange, Head, View, Flip, Diagonal, Reordered;
    ghost var row := Head(a, n);
    NextK(false, b, 2, row, o, k);
    DiagonalCells(b, 2, k);
    DiagonalIs(b, 2, row, k);
    PosStride(b, 2, k, k);
    Pow2Positive(b);
    var j1 := 2 * k + 2 * m + ip[k];
    var k1 := j1 + 2 * m;
    SwapPairs(false, a, j1, k1, n);
  }

  /** Lines 874-887. */
  method DiagonalConjRow4(n: nat, a: array<real>, ip: array<nat>, m: nat, k: nat, ghost b: nat, ghost o: seq<Complex>)
    requires n % 2 == 0 && n <= a.Length
    requires TableBuilt(ip, b, 2) && m == Pow2(b) && k < m
    requires Progress(true, b, 2, Head(a, n), o, k, k, 0)
    modifies a
    ensures Progress(true, b, 2, Head(a, n), o, k + 1, 0, 0)
    ensures a[n..] == old(a[n..])
  {
    hide Pow2, Rev, Pos, Progress, Exchange, Head, View, Flip, Diagonal, Reordered;
    ghost var row := Head(a, n);
    NextK(true, b, 2, row, o, k);
    DiagonalCells(b, 2, k);
    DiagonalIs(b, 2, row, k);
    PosStride(b, 2, k, k);
    Pow2Positive(b);
    var k1 := 2 * k + ip[k];
    FlipPair(a, k1, n);
    var j1 := k1 + 2 * m;
    k1 := j1 + 2 * m;
    SwapPairs(true, a, j1, k1, n);
    k1 := k1 + 2 * m;
    FlipPair(a, k1, n);
  }

  /** Lines 915-917, and lines 890-891 for k == 0. */
  method DiagonalConjRow2(n: nat, a: array<real>, ip: array<nat>, m: nat, k: nat, ghost b: nat, ghost o: seq<Complex>)
    requires n % 2 == 0 && n <= a.Length
    requires TableBuilt(ip, b, 1) && m == Pow2(b) && k < m
    requires Progress(true, b, 1, Head(a, n), o, k, k, 0)
    modifies a
    ensures Progress(true, b, 1, Head(a, n), o, k + 1, 0, 0)
    ensures a[n..] == old(a[n..])
  {
    hide Pow2, Rev, Pos, Progress, Exchange, Head, View, Flip, Diagonal, Reordered;
    ghost var row := Head(a, n);
    NextK(true, b, 1, row, o, k);
    DiagonalCells(b, 1, k);
    DiagonalIs(b, 1, row, k);
    PosStride(b, 1, k, k);
    Pow2Small();
    var k1 := 2 * k + ip[k];
    FlipPair(a, k1, n);
    FlipPair(a, k1 + 2 * m, n);
  }

  method Bitrv2(n: nat, a: array<real>, ghost q: nat)
    requires 2 <= q && n == 2 * Pow2(q) <= Pow2(23) && n % 2 == 0
    requires n <= a.Length
    modifies a
    ensures Head(a, n) == Reordered(false, q, old(Head(a, n)))
    ensures a[n..] == old(a[n..])
  {
    hide *;
    TableFits(q);
    var ip := new nat[1024];
    var m, l, b, e := ReversalTable(n, ip, q);
    ghost var o := Head(a, n);
    Start(false, b, e, o);
    if m * 8 == l {
      for k := 0 to m
        invariant Progress(false, b, e, Head(a, n), o, k, 0, 0)
        invariant a[n..] == old(a[n..])
        invariant TableBuilt(ip, b, e)
      {
        ExchangeRow4(false, n, a, ip, m, k, b, o);
        DiagonalRow4(n, a, ip, m, k, b, o);
      }
    } else {
      PlainDiagonal(b, o, o, 0);
      for k := 1 to m
        invariant Progress(false, b, e, Head(a, n), o, k, 0, 0)
        invariant a[n..] == old(a[n..])
        invariant TableBuilt(ip, b, e)
      {
        ExchangeRow2(false, n, a, ip, m, k, b, o);
        PlainDiagonal(b, Head(a, n), o, k);
      }
    }
    Finish(false, b, e, Head(a, n), o);
    assert b + e + b == q;
  }

  /** With one middle bit the diagonal entries are fixed points. */
  lemma PlainDiagonal(b: nat, s: seq<Complex>, o: seq<Complex>, k: nat)
    requires Progress(false, b, 1, s, o, k, k, 0) && k < Pow2(b)
    ensures Progress(false, b, 1, s, o, k + 1, 0, 0)
  {
    NextK(false, b, 1, s, o, k);
    DiagonalCells(b, 1, k);
    DiagonalIs(b, 1, s, k);
  }

  method Bitrv2Conj(n: nat, a: array<real>, ghost q: nat)
    requires 2 <= q && n == 2 * Pow2(q) <= Pow2(21) && n % 2 == 0
    requires n <= a.Length
    modifies a
    ensures Head(a, n) == Reordered(true, q, old(Head(a, n)))
    ensures a[n..] == old(a[n..])
  {
    hide *;
    TableFits(q);
    var ip := new nat[512];
    var m, l, b, e := ReversalTable(n, ip, q);
    ghost var o := Head(a, n);
    Start(true, b, e, o);
    if m * 8 == l {
      for k := 0 to m
        invariant Progress(true, b, e, Head(a, n), o, k, 0, 0)
        invariant a[n..] == old(a[n..])
        invariant TableBuilt(ip, b, e)
      {
        ExchangeRow4(true, n, a, ip, m, k, b, o);
        DiagonalConjRow4(n, a, ip, m, k, b, o);
      }
    } else {
      DiagonalConjRow2(n, a, ip, m, 0, b, o);
      for k := 1 to m
        invariant Progress(true, b, e, Head(a, n), o, k, 0, 0)
        invariant a[n..] == old(a[n..])
        invariant TableBuilt(ip, b, e)
      {
        ExchangeRow2(true, n, a, ip, m, k, b, o);
        DiagonalConjRow2(n, a, ip, m, k, b, o);
      }
    }
    Finish(true, b, e, Head(a, n), o);
    assert b + e + b == q;
  }
}

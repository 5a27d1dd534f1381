/** The mixed-radix transform of embedded-poc/embedded-shared/src/esp_dsp_fft.rs
    (`MixedRadix3840Sc16Fft::process`) against the direct DFT of the same file
    (`DirectDft`), over any commutative semiring with a root of unity: rounding,
    scaling and the final clamp are not part of the model. */
module MixedRadix {
  import opened ExactRing

  // ---- The direct DFT -------------------------------------------------------

  function Term<T(!new)>(R: Ring<T>, w: T, x: seq<T>, k: nat): nat -> T {
    (n: nat) => if n < |x| then R.mul(x[n], Pow(R, w, n * k)) else R.zero
  }

  /** X[k] = sum over n of x[n] * w^(n*k). */
  function DftAt<T(!new)>(R: Ring<T>, w: T, x: seq<T>, k: nat): T {
    Sum(R, Term(R, w, x, k), |x|)
  }

  function Dft<T(!new)>(R: Ring<T>, w: T, x: seq<T>): seq<T> {
    seq(|x|, k requires 0 <= k < |x| => DftAt(R, w, x, k))
  }

  /** Row-major index: row `r`, column `c`, rows of length `len`. */
  function At(len: nat, r: nat, c: nat): nat {
    len * r + c
  }

  lemma MulGap(len: nat, r: nat, r': nat)
    requires r < r'
    ensures len * r + len <= len * r'
  {
    var d := r' - r - 1;
    assert len * (r + 1 + d) == len * r + len + len * d;
    assert len * d >= 0;
  }

  lemma AtBound(len: nat, rows: nat, r: nat, c: nat)
    requires r < rows && c < len
    ensures At(len, r, c) < len * rows
  {
    MulGap(len, r, rows);
  }

  lemma AtInjective(len: nat, r: nat, c: nat, r': nat, c': nat)
    requires c < len && c' < len && At(len, r, c) == At(len, r', c')
    ensures r == r' && c == c'
  {
    if r < r' {
      MulGap(len, r, r');
    } else if r' < r {
      MulGap(len, r', r);
    }
  }

  lemma AtCovers(len: nat, rows: nat, k: nat) returns (r: nat, c: nat)
    requires k < len * rows
    ensures r < rows && c < len && k == At(len, r, c)
  {
    r, c := k / len, k % len;
    if rows < r {
      MulGap(len, rows, r);
    }
  }

  // ---- The decomposition ------------------------------------------------------

  /** Every `n2`-th input sample, starting at `b`. */
  function Row<T>(x: seq<T>, n1: nat, n2: nat, b: nat): (row: seq<T>)
    requires |x| == n1 * n2 && b < n2
    ensures |row| == n1
  {
    seq(n1, a requires 0 <= a < n1 => AtBound(n2, n1, a, b); assert n1 * n2 == n2 * n1; x[At(n2, a, b)])
  }

  /** Column `k1` after the row transforms and the twiddle multiply. */
  function Column<T(!new)>(R: Ring<T>, w: T, x: seq<T>, n1: nat, n2: nat, k1: nat): (col: seq<T>)
    requires |x| == n1 * n2
    ensures |col| == n2
  {
    seq(n2, b requires 0 <= b < n2 => R.mul(DftAt(R, Pow(R, w, n2), Row(x, n1, n2, b), k1), Pow(R, w, b * k1)))
  }

  /** Multiplying out the two mixed-radix indices. */
  lemma IndexProduct(n1: nat, n2: nat, a: nat, b: nat, k1: nat, k2: nat)
    ensures At(n2, a, b) * At(n1, k2, k1) == (n1 * n2) * (a * k2) + (n2 * (a * k1) + b * k1 + n1 * (b * k2))
  {
    var p, q := n2 * a, n1 * k2;
    assert (p + b) * (q + k1) == p * q + p * k1 + b * q + b * k1;
    Regroup(n2, a, n1, k2);
    assert p * k1 == n2 * (a * k1);
    assert b * q == n1 * (b * k2);
  }

  lemma Regroup(n2: nat, a: nat, n1: nat, k2: nat)
    ensures (n2 * a) * (n1 * k2) == (n1 * n2) * (a * k2)
  {
    calc {
      (n2 * a) * (n1 * k2);
      n2 * (a * (n1 * k2));
      n2 * (n1 * (a * k2));
      (n2 * n1) * (a * k2);
    }
  }

  lemma Exponent<T(!new)>(R: Ring<T>, w: T, n1: nat, n2: nat, a: nat, b: nat, k1: nat, k2: nat)
    requires IsRing(R) && Pow(R, w, n1 * n2) == R.one
    ensures Pow(R, w, At(n2, a, b) * At(n1, k2, k1))
         == R.mul(R.mul(Pow(R, Pow(R, w, n2), a * k1), Pow(R, w, b * k1)), Pow(R, Pow(R, w, n1), b * k2))
  {
    var ak1, bk1, bk2, ak2 := a * k1, b * k1, b * k2, a * k2;
    IndexProduct(n1, n2, a, b, k1, k2);
    ExponentSplit(R, w, n1, n2, ak2, ak1, bk1, bk2);
  }

  lemma ExponentSplit<T(!new)>(R: Ring<T>, w: T, n1: nat, n2: nat, ak2: nat, ak1: nat, bk1: nat, bk2: nat)
    requires IsRing(R) && Pow(R, w, n1 * n2) == R.one
    ensures Pow(R, w, (n1 * n2) * ak2 + (n2 * ak1 + bk1 + n1 * bk2))
         == R.mul(R.mul(Pow(R, Pow(R, w, n2), ak1), Pow(R, w, bk1)), Pow(R, Pow(R, w, n1), bk2))
  {
    PowWrap(R, w, n1 * n2, ak2, n2 * ak1 + bk1 + n1 * bk2);
    PowAdd(R, w, n2 * ak1 + bk1, n1 * bk2);
    PowAdd(R, w, n2 * ak1, bk1);
    PowMul(R, w, n2, ak1);
    PowMul(R, w, n1, bk2);
  }

  /** One term of the direct sum, as the two stages compute it. */
  lemma TermFactors<T(!new)>(R: Ring<T>, w: T, x: seq<T>, n1: nat, n2: nat, k1: nat, k2: nat, a: nat, b: nat)
    requires IsRing(R) && Pow(R, w, n1 * n2) == R.one && |x| == n1 * n2 && b < n2 && a < n1
    ensures Term(R, w, x, At(n1, k2, k1))(At(n2, a, b))
         == R.mul(R.mul(Term(R, Pow(R, w, n2), Row(x, n1, n2, b), k1)(a), Pow(R, w, b * k1)),
                  Pow(R, Pow(R, w, n1), b * k2))
  {
    AtBound(n2, n1, a, b);
    Commute(n1, n2);
    var v, e := x[At(n2, a, b)], Pow(R, Pow(R, w, n2), a * k1);
    var c, d := Pow(R, w, b * k1), Pow(R, Pow(R, w, n1), b * k2);
    Exponent(R, w, n1, n2, a, b, k1, k2);
    assert Laws(R, v, e, c) && Laws(R, v, R.mul(e, c), d);
  }

  lemma Commute(a: nat, b: nat)
    ensures a * b == b * a
  {
  }

  lemma ColumnEntry<T(!new)>(R: Ring<T>, w: T, x: seq<T>, n1: nat, n2: nat, k1: nat, k2: nat, b: nat)
    requires |x| == n1 * n2 && b < n2
    ensures Term(R, Pow(R, w, n1), Column(R, w, x, n1, n2, k1), k2)(b)
         == R.mul(R.mul(Sum(R, Term(R, Pow(R, w, n2), Row(x, n1, n2, b), k1), n1), Pow(R, w, b * k1)),
                  Pow(R, Pow(R, w, n1), b * k2))
  {
    var col := Column(R, w, x, n1, n2, k1);
    assert |col| == n2;
    assert col[b] == R.mul(DftAt(R, Pow(R, w, n2), Row(x, n1, n2, b), k1), Pow(R, w, b * k1));
    assert DftAt(R, Pow(R, w, n2), Row(x, n1, n2, b), k1) == Sum(R, Term(R, Pow(R, w, n2), Row(x, n1, n2, b), k1), n1);
    assert Term(R, Pow(R, w, n1), col, k2)(b) == R.mul(col[b], Pow(R, Pow(R, w, n1), b * k2));
  }

  /** One column entry of the second stage gathers every `n2`-th term of the sum. */
  lemma ColumnTerm<T(!new)>(R: Ring<T>, w: T, x: seq<T>, n1: nat, n2: nat, k1: nat, k2: nat, b: nat)
    requires IsRing(R) && Pow(R, w, n1 * n2) == R.one && |x| == n1 * n2 && b < n2
    ensures Term(R, Pow(R, w, n1), Column(R, w, x, n1, n2, k1), k2)(b)
         == Sum(R, (a: nat) => Term(R, w, x, At(n1, k2, k1))(At(n2, a, b)), n1)
  {
    var f := Term(R, Pow(R, w, n2), Row(x, n1, n2, b), k1);
    var c, d := Pow(R, w, b * k1), Pow(R, Pow(R, w, n1), b * k2);
    var g := (a: nat) => Term(R, w, x, At(n1, k2, k1))(At(n2, a, b));
    forall a: nat | a < n1 ensures R.mul(R.mul(f(a), c), d) == g(a) {
      TermFactors(R, w, x, n1, n2, k1, k2, a, b);
    }
    SumScaleTwice(R, f, c, d, g, n1);
    ColumnEntry(R, w, x, n1, n2, k1, k2, b);
    SumExt(R, g, (a: nat) => Term(R, w, x, At(n1, k2, k1))(At(n2, a, b)), n1);
  }

  /** Cooley-Tukey: transform the `n2` rows, multiply by w^(b*k1), transform the
      `n1` columns; entry (k2, k1) is X[n1*k2 + k1]. */
  lemma CooleyTukey<T(!new)>(R: Ring<T>, w: T, x: seq<T>, n1: nat, n2: nat, k1: nat, k2: nat)
    requires IsRing(R) && Pow(R, w, n1 * n2) == R.one && |x| == n1 * n2
    ensures DftAt(R, w, x, At(n1, k2, k1)) == DftAt(R, Pow(R, w, n1), Column(R, w, x, n1, n2, k1), k2)
  {
    var term := Term(R, w, x, At(n1, k2, k1));
    var cell := (a: nat, b: nat) => term(At(n2, a, b));
    var h := Term(R, Pow(R, w, n1), Column(R, w, x, n1, n2, k1), k2);
    forall b: nat | b < n2 ensures h(b) == Sum(R, (a: nat) => cell(a, b), n1) {
      ColumnTerm(R, w, x, n1, n2, k1, k2, b);
      SumExt(R, (a: nat) => cell(a, b), (a: nat) => Term(R, w, x, At(n1, k2, k1))(At(n2, a, b)), n1);
    }
    forall a: nat, b: nat | a < n1 && b < n2 ensures cell(a, b) == term(n2 * a + b) {
      assert At(n2, a, b) == n2 * a + b;
    }
    SumColumns(R, term, cell, h, n1, n2);
  }

  // ---- The transforms as the source runs them, in place --------------------------

  /** `DirectDft::process`: a matrix-vector product with the precomputed table
      `twiddles[k*len + n] = w^(n*k)`. */
  method DirectDft<T(!new)>(R: Ring<T>, ghost w: T, twiddles: seq<T>, buf: array<T>)
    requires |twiddles| == buf.Length * buf.Length
    requires forall k: nat, n: nat :: k < buf.Length && n < buf.Length ==>
      At(buf.Length, k, n) < |twiddles| && twiddles[At(buf.Length, k, n)] == Pow(R, w, n * k)
    modifies buf
    ensures buf[..] == Dft(R, w, old(buf[..]))
  {
    ghost var x := buf[..];
    var len := buf.Length;
    var out := [];
    for k := 0 to len
      invariant |out| == k && buf[..] == x
      invariant forall j :: 0 <= j < k ==> out[j] == DftAt(R, w, x, j)
    {
      var acc := R.zero;
      for n := 0 to len
        invariant acc == Sum(R, Term(R, w, x, k), n)
      {
        acc := R.add(acc, R.mul(buf[n], twiddles[At(len, k, n)]));
      }
      out := out + [acc];
    }
    forall k | 0 <= k < len {
      buf[k] := out[k];
    }
    assert |buf[..]| == |Dft(R, w, x)|;
  }

  /** Step 1: row n2 of the scratch holds x[n2], x[n2 + N2], x[n2 + 2*N2], ... */
  method Reshape<T>(buf: array<T>, rows: array<T>, n1: nat, n2: nat)
    requires buf.Length == rows.Length == n1 * n2 && buf != rows
    modifies rows
    ensures forall b: nat, a: nat :: b < n2 && a < n1 ==>
      At(n1, b, a) < n1 * n2 && rows[At(n1, b, a)] == Row(buf[..], n1, n2, b)[a]
  {
    Commute(n1, n2);
    for a := 0 to n1
      invariant forall b: nat, a': nat :: b < n2 && a' < a ==>
        At(n1, b, a') < n1 * n2 && rows[At(n1, b, a')] == Row(buf[..], n1, n2, b)[a']
    {
      for b := 0 to n2
        invariant forall b': nat, a': nat :: b' < n2 && a' < a ==>
          At(n1, b', a') < n1 * n2 && rows[At(n1, b', a')] == Row(buf[..], n1, n2, b')[a']
        invariant forall b': nat :: b' < b ==>
          At(n1, b', a) < n1 * n2 && rows[At(n1, b', a)] == Row(buf[..], n1, n2, b')[a]
      {
        AtBound(n1, n2, b, a);
        AtBound(n2, n1, a, b);
        forall b': nat, a': nat | b' < n2 && a' < n1 && At(n1, b', a') == At(n1, b, a) ensures b' == b && a' == a {
          AtInjective(n1, b', a', b, a);
        }
        rows[At(n1, b, a)] := buf[At(n2, a, b)];
      }
    }
  }

  /** One inner transform over `rows[lo..lo + n]`, in place. */
  method TransformSpan<T>(fft: seq<T> -> seq<T>, rows: array<T>, lo: nat, n: nat)
    requires lo + n <= rows.Length && (forall s :: |s| == n ==> |fft(s)| == n)
    modifies rows
    ensures forall i :: lo <= i < lo + n ==> rows[i] == fft(old(rows[lo..lo + n]))[i - lo]
    ensures forall i :: 0 <= i < rows.Length && !(lo <= i < lo + n) ==> rows[i] == old(rows[i])
  {
    var y := fft(rows[lo..lo + n]);
    forall i | 0 <= i < n {
      rows[lo + i] := y[i];
    }
  }

  lemma RowInPlace<T>(rows: seq<T>, x: seq<T>, n1: nat, n2: nat, b: nat)
    requires |x| == |rows| == n1 * n2 && b < n2 && At(n1, b, 0) + n1 <= |rows|
    requires forall a: nat :: a < n1 ==> At(n1, b, a) < |rows| && rows[At(n1, b, a)] == Row(x, n1, n2, b)[a]
    ensures rows[At(n1, b, 0)..At(n1, b, 0) + n1] == Row(x, n1, n2, b)
  {
    var lo := At(n1, b, 0);
    forall a: nat | a < n1 ensures rows[lo + a] == Row(x, n1, n2, b)[a] {
      assert lo + a == At(n1, b, a);
    }
  }

  /** One row of step 2: the row is a span of the buffer. */
  method TransformRow<T>(fft: seq<T> -> seq<T>, rows: array<T>, n1: nat, n2: nat, b: nat, ghost x: seq<T>)
    requires |x| == rows.Length == n1 * n2 && b < n2 && (forall s :: |s| == n1 ==> |fft(s)| == n1)
    requires forall a: nat :: a < n1 ==> At(n1, b, a) < n1 * n2 && rows[At(n1, b, a)] == Row(x, n1, n2, b)[a]
    modifies rows
    ensures forall k1: nat :: k1 < n1 ==> rows[At(n1, b, k1)] == fft(Row(x, n1, n2, b))[k1]
    ensures forall b': nat, a: nat :: b' < n2 && a < n1 && b' != b ==>
      At(n1, b', a) < n1 * n2 && rows[At(n1, b', a)] == old(rows[At(n1, b', a)])
  {
    MulGap(n1, b, n2);
    var lo := At(n1, b, 0);
    RowInPlace(rows[..], x, n1, n2, b);
    TransformSpan(fft, rows, lo, n1);
    forall k1: nat | k1 < n1 ensures rows[At(n1, b, k1)] == fft(Row(x, n1, n2, b))[k1] {
      assert At(n1, b, k1) == lo + k1;
    }
    forall b': nat, a: nat | b' < n2 && a < n1 && b' != b
      ensures At(n1, b', a) < n1 * n2 && !(lo <= At(n1, b', a) < lo + n1)
    {
      MulGap(n1, b', n2);
      if lo <= At(n1, b', a) < lo + n1 {
        AtInjective(n1, b', a, b, At(n1, b', a) - lo);
      }
    }
  }

  /** Step 2: an N1-point transform along each of the N2 rows. */
  method TransformRows<T(!new)>(R: Ring<T>, ghost w: T, fft: seq<T> -> seq<T>, rows: array<T>, n1: nat, n2: nat,
                                ghost x: seq<T>)
    requires |x| == rows.Length == n1 * n2
    requires forall s :: |s| == n1 ==> fft(s) == Dft(R, w, s)
    requires forall b: nat, a: nat :: b < n2 && a < n1 ==>
      At(n1, b, a) < n1 * n2 && rows[At(n1, b, a)] == Row(x, n1, n2, b)[a]
    modifies rows
    ensures forall b: nat, k1: nat :: b < n2 && k1 < n1 ==>
      At(n1, b, k1) < n1 * n2 && rows[At(n1, b, k1)] == DftAt(R, w, Row(x, n1, n2, b), k1)
  {
    for b := 0 to n2
      invariant forall b': nat, k1: nat :: b' < b && k1 < n1 ==> rows[At(n1, b', k1)] == DftAt(R, w, Row(x, n1, n2, b'), k1)
      invariant forall b': nat, a: nat :: b <= b' < n2 && a < n1 ==> rows[At(n1, b', a)] == Row(x, n1, n2, b')[a]
    {
      TransformRow(fft, rows, n1, n2, b, x);
    }
  }

  /** One column of step 4: gather, transform, scatter. */
  method TransformColumn<T>(fft: seq<T> -> seq<T>, m: array<T>, n1: nat, n2: nat, c: nat, ghost column: seq<T>)
    requires m.Length == n1 * n2 && c < n1 && |column| == n2 && |fft(column)| == n2
    requires forall b: nat :: b < n2 ==> At(n1, b, c) < n1 * n2 && m[At(n1, b, c)] == column[b]
    modifies m
    ensures forall j: nat :: j < n2 ==> m[At(n1, j, c)] == fft(column)[j]
    ensures forall j: nat, c': nat :: j < n2 && c' < n1 && c' != c ==>
      At(n1, j, c') < n1 * n2 && m[At(n1, j, c')] == old(m[At(n1, j, c')])
  {
    forall j: nat, c': nat | j < n2 && c' < n1 ensures At(n1, j, c') < n1 * n2 {
      AtBound(n1, n2, j, c');
    }
    var col := [];
    for k2 := 0 to n2
      invariant |col| == k2 && forall b :: 0 <= b < k2 ==> col[b] == column[b]
    {
      col := col + [m[At(n1, k2, c)]];
    }
    assert col == column;
    col := fft(col);
    for k2 := 0 to n2
      invariant forall j: nat :: j < k2 ==> m[At(n1, j, c)] == col[j]
      invariant forall j: nat, c': nat :: j < n2 && c' < n1 && c' != c ==> m[At(n1, j, c')] == old(m[At(n1, j, c')])
    {
      forall j: nat, c': nat | j < n2 && c' < n1 && At(n1, j, c') == At(n1, k2, c) ensures j == k2 && c' == c {
        AtInjective(n1, j, c', k2, c);
      }
      m[At(n1, k2, c)] := col[k2];
    }
  }

  /** Step 3: multiply every entry by its twiddle factor. */
  method Twiddle<T(!new)>(R: Ring<T>, ghost w: T, twiddles: seq<T>, m: array<T>, n1: nat, n2: nat, ghost x: seq<T>)
    requires |x| == m.Length == |twiddles| == n1 * n2
    requires forall b: nat, k1: nat :: b < n2 && k1 < n1 ==>
      At(n1, b, k1) < n1 * n2 && twiddles[At(n1, b, k1)] == Pow(R, w, b * k1)
    requires forall b: nat, k1: nat :: b < n2 && k1 < n1 ==>
      m[At(n1, b, k1)] == DftAt(R, Pow(R, w, n2), Row(x, n1, n2, b), k1)
    modifies m
    ensures forall b: nat, k1: nat :: b < n2 && k1 < n1 ==> m[At(n1, b, k1)] == Column(R, w, x, n1, n2, k1)[b]
  {
    for i := 0 to m.Length
      invariant forall j :: 0 <= j < i ==> m[j] == R.mul(old(m[j]), twiddles[j])
      invariant forall j :: i <= j < m.Length ==> m[j] == old(m[j])
    {
      m[i] := R.mul(m[i], twiddles[i]);
    }
  }

  /** Step 4: an N2-point transform down each of the N1 columns. */
  method TransformColumns<T(!new)>(R: Ring<T>, ghost w: T, fft: seq<T> -> seq<T>, m: array<T>,
                                   n1: nat, n2: nat, ghost x: seq<T>)
    requires |x| == m.Length == n1 * n2
    requires forall s :: |s| == n2 ==> fft(s) == Dft(R, Pow(R, w, n1), s)
    requires forall b: nat, k1: nat :: b < n2 && k1 < n1 ==>
      At(n1, b, k1) < n1 * n2 && m[At(n1, b, k1)] == Column(R, w, x, n1, n2, k1)[b]
    modifies m
    ensures forall k2: nat, k1: nat :: k2 < n2 && k1 < n1 ==>
      At(n1, k2, k1) < n1 * n2 && m[At(n1, k2, k1)] == DftAt(R, Pow(R, w, n1), Column(R, w, x, n1, n2, k1), k2)
  {
    for k1 := 0 to n1
      invariant forall k2: nat, c: nat :: k2 < n2 && c < k1 ==>
        m[At(n1, k2, c)] == DftAt(R, Pow(R, w, n1), Column(R, w, x, n1, n2, c), k2)
      invariant forall b: nat, c: nat :: b < n2 && k1 <= c < n1 ==> m[At(n1, b, c)] == Column(R, w, x, n1, n2, c)[b]
    {
      TransformColumn(fft, m, n1, n2, k1, Column(R, w, x, n1, n2, k1));
    }
  }

  /** Step 5: write back in natural order, k = N1*k2 + k1. */
  method WriteBack<T>(m: array<T>, buf: array<T>, n1: nat, n2: nat)
    requires m.Length == buf.Length == n1 * n2 && m != buf
    modifies buf
    ensures buf[..] == m[..]
  {
    forall j: nat, c: nat | j < n2 && c < n1 ensures At(n1, j, c) < n1 * n2 {
      AtBound(n1, n2, j, c);
    }
    for k2 := 0 to n2
      invariant forall j: nat, c: nat :: j < k2 && c < n1 ==> buf[At(n1, j, c)] == m[At(n1, j, c)]
    {
      for k1 := 0 to n1
        invariant forall j: nat, c: nat :: j < n2 && c < n1 && (j < k2 || (j == k2 && c < k1)) ==>
          buf[At(n1, j, c)] == m[At(n1, j, c)]
      {
        buf[At(n1, k2, k1)] := m[At(n1, k2, k1)];
      }
    }
    forall k: nat | k < n1 * n2 ensures buf[k] == m[k] {
      var k2, k1 := AtCovers(n1, n2, k);
    }
  }

  /** `MixedRadix3840Sc16Fft::process` at any N = N1 * N2, with any inner
      transforms that compute their own DFTs: the buffer ends up holding the
      direct DFT of what it held. */
  method MixedRadixProcess<T(!new)>(R: Ring<T>, ghost w: T, n1: nat, n2: nat, twiddles: seq<T>,
                                    fft1: seq<T> -> seq<T>, fft2: seq<T> -> seq<T>, buf: array<T>)
    requires IsRing(R) && Pow(R, w, n1 * n2) == R.one
    requires buf.Length == |twiddles| == n1 * n2
    requires forall b: nat, k1: nat :: b < n2 && k1 < n1 ==>
      At(n1, b, k1) < n1 * n2 && twiddles[At(n1, b, k1)] == Pow(R, w, b * k1)
    requires forall s :: |s| == n1 ==> fft1(s) == Dft(R, Pow(R, w, n2), s)
    requires forall s :: |s| == n2 ==> fft2(s) == Dft(R, Pow(R, w, n1), s)
    modifies buf
    ensures buf[..] == Dft(R, w, old(buf[..]))
  {
    ghost var x := buf[..];
    var m := new T[buf.Length](_ => R.zero);
    Reshape(buf, m, n1, n2);
    TransformRows(R, Pow(R, w, n2), fft1, m, n1, n2, x);
    Twiddle(R, w, twiddles, m, n1, n2, x);
    TransformColumns(R, w, fft2, m, n1, n2, x);
    WriteBack(m, buf, n1, n2);
    TransformedIsDft(R, w, n1, n2, x, buf[..]);
  }

  lemma TransformedIsDft<T(!new)>(R: Ring<T>, w: T, n1: nat, n2: nat, x: seq<T>, y: seq<T>)
    requires IsRing(R) && Pow(R, w, n1 * n2) == R.one && |x| == |y| == n1 * n2
    requires forall k2: nat, k1: nat :: k2 < n2 && k1 < n1 ==>
      At(n1, k2, k1) < n1 * n2 && y[At(n1, k2, k1)] == DftAt(R, Pow(R, w, n1), Column(R, w, x, n1, n2, k1), k2)
    ensures y == Dft(R, w, x)
  {
    forall k: nat | k < n1 * n2 ensures y[k] == DftAt(R, w, x, k) {
      var k2, k1 := AtCovers(n1, n2, k);
      CooleyTukey(R, w, x, n1, n2, k1, k2);
    }
  }
}

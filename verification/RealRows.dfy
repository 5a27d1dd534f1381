/** Two real rows through one complex transform: why one packed transform per
    pair is enough for the incremental spectrogram
    (embedded-poc/embedded-shared/src/stage1_inc.rs, `pair_kernel_f32` and
    `pair_kernel_i16`). The symmetry is proved over any commutative semiring with
    a conjugation, then used at the exact complex numbers. */
module RealRows {
  import opened Common
  import opened ExactRing
  import opened MixedRadix

  // ---- Conjugation, abstractly --------------------------------------------------

  ghost predicate KeepsAt<T(!new)>(R: Ring<T>, conj: T -> T, x: T, y: T) {
    && conj(R.add(x, y)) == R.add(conj(x), conj(y))
    && conj(R.mul(x, y)) == R.mul(conj(x), conj(y))
    && conj(R.zero) == R.zero
    && conj(R.one) == R.one
  }

  ghost predicate IsConjugation<T(!new)>(R: Ring<T>, conj: T -> T) {
    forall x, y :: KeepsAt(R, conj, x, y)
  }

  lemma {:induction false} ConjPow<T(!new)>(R: Ring<T>, conj: T -> T, w: T, e: nat)
    requires IsConjugation(R, conj)
    ensures conj(Pow(R, w, e)) == Pow(R, conj(w), e)
  {
    if e == 0 {
      assert KeepsAt(R, conj, w, w);
    } else {
      ConjPow(R, conj, w, e - 1);
      assert KeepsAt(R, conj, Pow(R, w, e - 1), w);
    }
  }

  lemma {:induction false} ConjSum<T(!new)>(R: Ring<T>, conj: T -> T, f: nat -> T, n: nat)
    requires IsConjugation(R, conj)
    ensures conj(Sum(R, f, n)) == Sum(R, (i: nat) => conj(f(i)), n)
  {
    if n == 0 {
      assert KeepsAt(R, conj, R.zero, R.zero);
    } else {
      ConjSum(R, conj, f, n - 1);
      assert KeepsAt(R, conj, Sum(R, f, n - 1), f(n - 1));
    }
  }

  lemma {:induction false} InversePowers<T(!new)>(R: Ring<T>, v: T, w: T, e: nat)
    requires IsRing(R) && R.mul(v, w) == R.one
    ensures R.mul(Pow(R, v, e), Pow(R, w, e)) == R.one
  {
    if e == 0 {
      assert Laws(R, R.one, R.one, R.one);
    } else {
      InversePowers(R, v, w, e - 1);
      var p, q := Pow(R, v, e - 1), Pow(R, w, e - 1);
      calc {
        R.mul(R.mul(p, v), R.mul(q, w));
        { assert Laws(R, p, v, R.mul(q, w)); }
        R.mul(p, R.mul(v, R.mul(q, w)));
        { assert Laws(R, v, q, w) && Laws(R, q, v, w); }
        R.mul(p, R.mul(q, R.mul(v, w)));
        { assert Laws(R, p, q, R.one); }
        R.mul(R.mul(p, q), R.one);
        { assert Laws(R, R.one, R.one, R.one); }
        R.one;
      }
    }
  }

  lemma InverseIsUnique<T(!new)>(R: Ring<T>, p: T, r: T, q: T)
    requires IsRing(R) && R.mul(p, q) == R.one && R.mul(r, q) == R.one
    ensures p == r
  {
    calc {
      p;
      { assert Laws(R, p, R.one, R.one); }
      R.mul(R.mul(r, q), p);
      { assert Laws(R, r, q, p); }
      R.mul(r, R.mul(q, p));
      { assert Laws(R, q, p, p) && Laws(R, r, R.one, R.one); }
      r;
    }
  }

  lemma InversePower<T(!new)>(R: Ring<T>, v: T, w: T, len: nat, turns: nat, e: nat, e': nat)
    requires IsRing(R) && R.mul(v, w) == R.one && Pow(R, w, len) == R.one && e' + e == len * turns
    ensures Pow(R, v, e) == Pow(R, w, e')
  {
    InversePowers(R, v, w, e);
    PowAdd(R, w, e', e);
    PowWrap(R, w, len, turns, 0);
    InverseIsUnique(R, Pow(R, v, e), Pow(R, w, e'), Pow(R, w, e));
  }

  /** Exponents of a sample at a bin and at its mirror complete whole turns. */
  lemma MirrorExponent(len: nat, n: nat, k: nat) returns (e: nat, e': nat, turns: nat)
    requires k < len
    ensures e == n * k && e' == n * Mirror(len, k) && e' + e == len * turns
  {
    e, e' := n * k, n * Mirror(len, k);
    turns := if k == 0 then 0 else n;
  }

  /** For a root of unity whose conjugate is its inverse, conjugating w^(n*k) is
      stepping to the mirror bin. */
  lemma MirrorPower<T(!new)>(R: Ring<T>, conj: T -> T, w: T, len: nat, n: nat, k: nat)
    requires IsRing(R) && R.mul(conj(w), w) == R.one && Pow(R, w, len) == R.one && k < len
    ensures Pow(R, conj(w), n * k) == Pow(R, w, n * Mirror(len, k))
  {
    var e, e', turns := MirrorExponent(len, n, k);
    InversePower(R, conj(w), w, len, turns, e, e');
  }

  /** The transform of a self-conjugate row repeats itself, conjugated, at the
      mirror bin. */
  lemma RealRowIsHermitian<T(!new)>(R: Ring<T>, conj: T -> T, w: T, x: seq<T>, k: nat)
    requires IsRing(R) && IsConjugation(R, conj)
    requires R.mul(conj(w), w) == R.one && Pow(R, w, |x|) == R.one && k < |x|
    requires forall n :: 0 <= n < |x| ==> conj(x[n]) == x[n]
    ensures DftAt(R, w, x, Mirror(|x|, k)) == conj(DftAt(R, w, x, k))
  {
    var f := Term(R, w, x, k);
    ConjSum(R, conj, f, |x|);
    forall n: nat | n < |x| ensures conj(f(n)) == Term(R, w, x, Mirror(|x|, k))(n) {
      assert KeepsAt(R, conj, x[n], Pow(R, w, n * k));
      ConjPow(R, conj, w, n * k);
      MirrorPower(R, conj, w, |x|, n, k);
    }
    SumExt(R, (i: nat) => conj(f(i)), Term(R, w, x, Mirror(|x|, k)), |x|);
  }

  /** The transform is linear: of a + b*c, it is that of a plus c times that of b. */
  lemma TransformIsLinear<T(!new)>(R: Ring<T>, w: T, x: seq<T>, a: seq<T>, b: seq<T>, c: T, k: nat)
    requires IsRing(R) && |x| == |a| == |b|
    requires forall n :: 0 <= n < |x| ==> x[n] == R.add(a[n], R.mul(b[n], c))
    ensures DftAt(R, w, x, k) == R.add(DftAt(R, w, a, k), R.mul(DftAt(R, w, b, k), c))
  {
    var f, g, h := Term(R, w, a, k), Term(R, w, b, k), Term(R, w, x, k);
    var gc := (n: nat) => R.mul(g(n), c);
    SumScale(R, g, c, |a|);
    SumAdd(R, f, gc, |a|);
    forall n: nat | n < |a| ensures R.add(f(n), gc(n)) == h(n) {
      var p := Pow(R, w, n * k);
      assert Laws(R, a[n], R.mul(b[n], c), p);
      assert Laws(R, b[n], c, p) && Laws(R, b[n], p, c) && Laws(R, c, p, p);
    }
    SumExt(R, (n: nat) => R.add(f(n), gc(n)), h, |a|);
  }

  // ---- The exact complex numbers --------------------------------------------------

  datatype Complex = Complex(re: real, im: real)

  function Plus(a: Complex, b: Complex): Complex {
    Complex(a.re + b.re, a.im + b.im)
  }

  function Times(a: Complex, b: Complex): Complex {
    Complex(a.re * b.re - a.im * b.im, a.re * b.im + a.im * b.re)
  }

  function Conj(a: Complex): Complex {
    Complex(a.re, -a.im)
  }

  const I := Complex(0.0, 1.0)

  const C := Ring(Complex(0.0, 0.0), Complex(1.0, 0.0), Plus, Times)

  lemma TimesAssociates(x: Complex, y: Complex, z: Complex)
    ensures Times(Times(x, y), z) == Times(x, Times(y, z))
  {
  }

  lemma TimesDistributes(x: Complex, y: Complex, z: Complex)
    ensures Times(Plus(x, y), z) == Plus(Times(x, z), Times(y, z))
  {
  }

  lemma ConjTimes(a: Complex, b: Complex)
    ensures Conj(Times(a, b)) == Times(Conj(a), Conj(b))
  {
  }

  lemma ComplexIsRing()
    ensures IsRing(C) && IsConjugation(C, Conj)
  {
    forall x, y, z ensures Laws(C, x, y, z) {
      TimesAssociates(x, y, z);
      TimesDistributes(x, y, z);
    }
    forall x, y ensures KeepsAt(C, Conj, x, y) {
      ConjTimes(x, y);
    }
  }

  // ---- The packed transform --------------------------------------------------------

  /** A real row as a complex one. */
  function AsComplex(a: seq<real>): seq<Complex> {
    seq(|a|, n requires 0 <= n < |a| => Complex(a[n], 0.0))
  }

  /** Row `a` in the real part, row `b` in the imaginary part. */
  function Packed(a: seq<real>, b: seq<real>): seq<Complex>
    requires |a| == |b|
  {
    seq(|a|, n requires 0 <= n < |a| => Complex(a[n], b[n]))
  }

  /** Half-sums of bin k and its mirror, as `pair_kernel_f32` forms them. */
  function HalfSums(yk: Complex, yn: Complex): (Complex, Complex) {
    (Complex((yk.re + yn.re) * 0.5, (yk.im - yn.im) * 0.5), Complex((yk.im + yn.im) * 0.5, (yn.re - yk.re) * 0.5))
  }

  lemma TimesI(b: Complex)
    ensures Times(b, I) == Complex(-b.im, b.re)
  {
  }

  lemma HalfSumsOfMirrors(a: Complex, b: Complex)
    ensures HalfSums(Plus(a, Times(b, I)), Plus(Conj(a), Times(Conj(b), I))) == (a, b)
  {
    TimesI(b);
    TimesI(Conj(b));
  }

  lemma PackedTransform(w: Complex, a: seq<real>, b: seq<real>, k: nat)
    requires |a| == |b|
    ensures DftAt(C, w, Packed(a, b), k)
         == Plus(DftAt(C, w, AsComplex(a), k), Times(DftAt(C, w, AsComplex(b), k), I))
  {
    ComplexIsRing();
    var x, ca, cb := Packed(a, b), AsComplex(a), AsComplex(b);
    forall n | 0 <= n < |a| ensures x[n] == C.add(ca[n], C.mul(cb[n], I)) {
      TimesI(cb[n]);
    }
    TransformIsLinear(C, w, x, ca, cb, I, k);
  }

  /** One transform of a + ib yields both rows' transforms at every bin: the
      half-sums at bin k are exactly DFT(a)[k] and DFT(b)[k]. */
  lemma OneTransformTwoRows(w: Complex, a: seq<real>, b: seq<real>, k: nat)
    requires Times(Conj(w), w) == C.one && Pow(C, w, |a|) == C.one && |a| == |b| && k < |a|
    ensures
      var y := Dft(C, w, Packed(a, b));
      HalfSums(y[k], y[Mirror(|a|, k)]) == (DftAt(C, w, AsComplex(a), k), DftAt(C, w, AsComplex(b), k))
  {
    ComplexIsRing();
    PackedTransform(w, a, b, k);
    PackedTransform(w, a, b, Mirror(|a|, k));
    RealRowIsHermitian(C, Conj, w, AsComplex(a), k);
    RealRowIsHermitian(C, Conj, w, AsComplex(b), k);
    HalfSumsOfMirrors(DftAt(C, w, AsComplex(a), k), DftAt(C, w, AsComplex(b), k));
  }
}

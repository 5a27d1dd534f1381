/** Exact arithmetic for the transforms: any commutative semiring, finite sums
    over it, and powers. The laws are packed into one predicate instance per
    triple so that a proof uses exactly the instances it names. */
module ExactRing {

  datatype Ring<!T(!new)> = Ring(zero: T, one: T, add: (T, T) -> T, mul: (T, T) -> T)

  ghost predicate Laws<T(!new)>(R: Ring<T>, x: T, y: T, z: T) {
    && R.add(x, y) == R.add(y, x)
    && R.add(R.add(x, y), z) == R.add(x, R.add(y, z))
    && R.add(R.zero, x) == x
    && R.mul(x, y) == R.mul(y, x)
    && R.mul(R.mul(x, y), z) == R.mul(x, R.mul(y, z))
    && R.mul(R.one, x) == x
    && R.mul(R.zero, x) == R.zero
    && R.mul(R.add(x, y), z) == R.add(R.mul(x, z), R.mul(y, z))
  }

  ghost predicate IsRing<T(!new)>(R: Ring<T>) {
    forall x, y, z :: Laws(R, x, y, z)
  }

  // ---- Powers ---------------------------------------------------------------

  function Pow<T(!new)>(R: Ring<T>, w: T, e: nat): T {
    if e == 0 then R.one else R.mul(Pow(R, w, e - 1), w)
  }

  lemma {:induction false} PowAdd<T(!new)>(R: Ring<T>, w: T, a: nat, b: nat)
    requires IsRing(R)
    ensures Pow(R, w, a + b) == R.mul(Pow(R, w, a), Pow(R, w, b))
  {
    if b == 0 {
      assert Laws(R, Pow(R, w, a), R.one, R.one);
    } else {
      PowAdd(R, w, a, b - 1);
      assert Laws(R, Pow(R, w, a), Pow(R, w, b - 1), w);
      assert Pow(R, w, a + b) == R.mul(Pow(R, w, a + b - 1), w);
    }
  }

  lemma {:induction false} PowMul<T(!new)>(R: Ring<T>, w: T, a: nat, b: nat)
    requires IsRing(R)
    ensures Pow(R, w, a * b) == Pow(R, Pow(R, w, a), b)
  {
    if b == 0 {
      assert a * b == 0;
    } else {
      PowMul(R, w, a, b - 1);
      assert a * b == a * (b - 1) + a;
      PowAdd(R, w, a * (b - 1), a);
    }
  }

  /** A root of unity's exponent only matters modulo its order. */
  lemma {:induction false} PowWrap<T(!new)>(R: Ring<T>, w: T, n: nat, q: nat, e: nat)
    requires IsRing(R) && Pow(R, w, n) == R.one
    ensures Pow(R, w, n * q + e) == Pow(R, w, e)
  {
    PowAdd(R, w, n * q, e);
    PowMul(R, w, n, q);
    PowOne(R, q);
    assert Laws(R, Pow(R, w, e), R.one, R.one);
  }

  lemma {:induction false} PowOne<T(!new)>(R: Ring<T>, e: nat)
    requires IsRing(R)
    ensures Pow(R, R.one, e) == R.one
  {
    if e > 0 {
      PowOne(R, e - 1);
      assert Laws(R, R.one, R.one, R.one);
    }
  }

  // ---- Sums -------------------------------------------------------------------

  function Sum<T(!new)>(R: Ring<T>, f: nat -> T, n: nat): T {
    if n == 0 then R.zero else R.add(Sum(R, f, n - 1), f(n - 1))
  }

  lemma {:induction false} SumExt<T(!new)>(R: Ring<T>, f: nat -> T, g: nat -> T, n: nat)
    requires forall i: nat :: i < n ==> f(i) == g(i)
    ensures Sum(R, f, n) == Sum(R, g, n)
  {
    if n > 0 {
      SumExt(R, f, g, n - 1);
    }
  }

  lemma {:induction false} SumScale<T(!new)>(R: Ring<T>, f: nat -> T, c: T, n: nat)
    requires IsRing(R)
    ensures R.mul(Sum(R, f, n), c) == Sum(R, (i: nat) => R.mul(f(i), c), n)
  {
    if n == 0 {
      assert Laws(R, c, c, c);
    } else {
      SumScale(R, f, c, n - 1);
      assert Laws(R, Sum(R, f, n - 1), f(n - 1), c);
    }
  }

  lemma {:induction false} SumAdd<T(!new)>(R: Ring<T>, f: nat -> T, g: nat -> T, n: nat)
    requires IsRing(R)
    ensures R.add(Sum(R, f, n), Sum(R, g, n)) == Sum(R, (i: nat) => R.add(f(i), g(i)), n)
  {
    if n == 0 {
      assert Laws(R, R.zero, R.zero, R.zero);
    } else {
      SumAdd(R, f, g, n - 1);
      var a, b, x, y := Sum(R, f, n - 1), Sum(R, g, n - 1), f(n - 1), g(n - 1);
      assert Laws(R, a, x, R.add(b, y)) && Laws(R, x, b, y) && Laws(R, b, x, y) && Laws(R, a, b, R.add(x, y));
    }
  }

  /** Splitting a sum in two at `m`. */
  lemma {:induction false} SumConcat<T(!new)>(R: Ring<T>, f: nat -> T, m: nat, n: nat)
    requires IsRing(R)
    ensures Sum(R, f, m + n) == R.add(Sum(R, f, m), Sum(R, (i: nat) => f(m + i), n))
  {
    if n == 0 {
      assert Laws(R, Sum(R, f, m), R.zero, R.zero);
    } else {
      SumConcat(R, f, m, n - 1);
      assert Laws(R, Sum(R, f, m), Sum(R, (i: nat) => f(m + i), n - 1), f(m + n - 1));
    }
  }

  /** A sum over `a * b` terms, read as `a` rows of `b`. */
  lemma {:induction false} SumRows<T(!new)>(R: Ring<T>, f: nat -> T, a: nat, b: nat)
    requires IsRing(R)
    ensures Sum(R, f, a * b) == Sum(R, (i: nat) => Sum(R, (j: nat) => f(b * i + j), b), a)
  {
    if a > 0 {
      SumRows(R, f, a - 1, b);
      assert a * b == b * (a - 1) + b;
      assert (a - 1) * b == b * (a - 1);
      SumConcat(R, f, b * (a - 1), b);
    }
  }

  /** Exchanging the order of a double sum. */
  lemma {:induction false} SumSwap<T(!new)>(R: Ring<T>, f: (nat, nat) -> T, a: nat, b: nat)
    requires IsRing(R)
    ensures Sum(R, (i: nat) => Sum(R, (j: nat) => f(i, j), b), a) == Sum(R, (j: nat) => Sum(R, (i: nat) => f(i, j), a), b)
  {
    if a == 0 {
      SumZero(R, b);
      SumExt(R, (j: nat) => R.zero, (j: nat) => Sum(R, (i: nat) => f(i, j), 0), b);
    } else {
      SumSwap(R, f, a - 1, b);
      var rows := (j: nat) => Sum(R, (i: nat) => f(i, j), a - 1);
      var last := (j: nat) => f(a - 1, j);
      SumAdd(R, rows, last, b);
      SumExt(R, (j: nat) => R.add(rows(j), last(j)), (j: nat) => Sum(R, (i: nat) => f(i, j), a), b);
    }
  }

  lemma {:induction false} SumZero<T(!new)>(R: Ring<T>, n: nat)
    requires IsRing(R)
    ensures Sum(R, (i: nat) => R.zero, n) == R.zero
  {
    if n > 0 {
      SumZero(R, n - 1);
      assert Laws(R, R.zero, R.zero, R.zero);
    }
  }

  /** Two constant factors move inside a sum. */
  lemma SumScaleTwice<T(!new)>(R: Ring<T>, f: nat -> T, c: T, d: T, g: nat -> T, n: nat)
    requires IsRing(R)
    requires forall i: nat :: i < n ==> R.mul(R.mul(f(i), c), d) == g(i)
    ensures R.mul(R.mul(Sum(R, f, n), c), d) == Sum(R, g, n)
  {
    var fc := (i: nat) => R.mul(f(i), c);
    SumScale(R, f, c, n);
    SumScale(R, fc, d, n);
    SumExt(R, (i: nat) => R.mul(fc(i), d), g, n);
  }

  /** A sum over `a * b` terms, gathered column by column. */
  lemma SumColumns<T(!new)>(R: Ring<T>, f: nat -> T, cell: (nat, nat) -> T, h: nat -> T, a: nat, b: nat)
    requires IsRing(R)
    requires forall i: nat, j: nat :: i < a && j < b ==> cell(i, j) == f(b * i + j)
    requires forall j: nat :: j < b ==> h(j) == Sum(R, (i: nat) => cell(i, j), a)
    ensures Sum(R, f, a * b) == Sum(R, h, b)
  {
    SumRows(R, f, a, b);
    var rows := (i: nat) => Sum(R, (j: nat) => f(b * i + j), b);
    var rows' := (i: nat) => Sum(R, (j: nat) => cell(i, j), b);
    forall i: nat | i < a ensures rows(i) == rows'(i) {
      SumExt(R, (j: nat) => f(b * i + j), (j: nat) => cell(i, j), b);
    }
    SumExt(R, rows, rows', a);
    SumSwap(R, cell, a, b);
    SumExt(R, (j: nat) => Sum(R, (i: nat) => cell(i, j), a), h, b);
  }
}

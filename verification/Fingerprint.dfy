/** The fingerprint that guards a kept FFT cache (mfsk-ffi/src/lib.rs,
    `audio_fingerprint`): FNV-1a over the samples, in 64-bit wrap-around arithmetic. */
module Fingerprint {

  import opened Common

  const WORD: nat := 0x1_0000_0000_0000_0000
  const BASIS: nat := 0xcbf2_9ce4_8422_2325
  const PRIME: nat := 0x0000_0100_0000_01b3

  /** The inverse of PRIME modulo 2^64, and the witness of it. */
  const INVERSE: nat := 0xce96_5057_aff6_957b
  const QUOTIENT: nat := (PRIME * INVERSE - 1) / WORD

  type U64 = x: int | 0 <= x < WORD

  /** Bitwise exclusive or. */
  function Xor(a: nat, b: nat): nat
    decreases a + b
  {
    if a == 0 then b
    else if b == 0 then a
    else (if a % 2 == b % 2 then 0 else 1) + 2 * Xor(a / 2, b / 2)
  }

  lemma XorStep(a: nat, b: nat)
    ensures Xor(a, b) == (if a % 2 == b % 2 then 0 else 1) + 2 * Xor(a / 2, b / 2)
  {
  }

  /** What one operand does can be undone by doing it again. */
  lemma {:induction false} XorUndoes(a: nat, b: nat)
    ensures Xor(Xor(a, b), b) == a
    decreases a + b
  {
    if a + b > 0 {
      XorStep(a, b);
      var h := Xor(a / 2, b / 2);
      XorStep(Xor(a, b), b);
      assert Xor(a, b) / 2 == h;
      XorUndoes(a / 2, b / 2);
    }
  }

  lemma {:induction false} XorCommutes(a: nat, b: nat)
    ensures Xor(a, b) == Xor(b, a)
    decreases a + b
  {
    if a + b > 0 {
      XorStep(a, b);
      XorStep(b, a);
      XorCommutes(a / 2, b / 2);
    }
  }

  lemma {:induction false} XorBound(a: nat, b: nat, n: nat)
    requires a < Pow2(n) && b < Pow2(n)
    ensures Xor(a, b) < Pow2(n)
  {
    if n > 0 {
      XorStep(a, b);
      XorBound(a / 2, b / 2, n - 1);
    }
  }

  lemma WordIsPow2()
    ensures Pow2(64) == WORD
  {
    assert Pow2(8) == 0x100;
    assert Pow2(16) == 0x1_0000;
    assert Pow2(24) == 0x100_0000;
    assert Pow2(32) == 0x1_0000_0000;
    assert Pow2(40) == 0x100_0000_0000;
    assert Pow2(48) == 0x1_0000_0000_0000;
    assert Pow2(56) == 0x100_0000_0000_0000;
  }

  function Xor64(a: U64, b: U64): U64 {
    WordIsPow2();
    XorBound(a, b, 64);
    Xor(a, b)
  }

  /** `wrapping_mul` by the prime. */
  function TimesPrime(h: U64): U64 {
    (h * PRIME) % WORD
  }

  /** Multiplication by an odd constant loses nothing. */
  lemma TimesPrimeInjective(a: U64, b: U64)
    requires TimesPrime(a) == TimesPrime(b)
    ensures a == b
  {
    var qa, qb := (a * PRIME) / WORD, (b * PRIME) / WORD;
    assert a * PRIME == WORD * qa + TimesPrime(a);
    assert b * PRIME == WORD * qb + TimesPrime(b);
    assert PRIME * INVERSE == 1 + WORD * QUOTIENT;
    assert (a - b) * PRIME == WORD * (qa - qb);
    var t := (qa - qb) * INVERSE - (a - b) * QUOTIENT;
    assert a - b == WORD * t;
  }

  /** `as u16 as u64`. */
  function Unsigned(s: I16): U64 {
    if s < 0 then s + 0x1_0000 else s
  }

  function Mix(h: U64, x: U64): U64 {
    TimesPrime(Xor64(h, x))
  }

  /** ...and reaches everything: multiplying by the inverse first undoes it. */
  function Unmultiplied(h: U64): U64 {
    (h * INVERSE) % WORD
  }

  lemma TimesPrimeReaches(h: U64)
    ensures TimesPrime(Unmultiplied(h)) == h
  {
    var q := (h * INVERSE) / WORD;
    assert h * INVERSE == WORD * q + Unmultiplied(h);
    assert PRIME * INVERSE == 1 + WORD * QUOTIENT;
    var t := h * QUOTIENT - q * PRIME;
    assert Unmultiplied(h) * PRIME == h + WORD * t;
    Remainder(h, t);
  }

  lemma Remainder(h: U64, t: int)
    ensures (h + WORD * t) % WORD == h
  {
  }

  /** For a given sample the state before is recoverable, and for a given state the
      sample is. */
  lemma MixInjective(h1: U64, h2: U64, x1: U64, x2: U64)
    requires Mix(h1, x1) == Mix(h2, x2)
    ensures h1 == h2 <==> x1 == x2
  {
    TimesPrimeInjective(Xor64(h1, x1), Xor64(h2, x2));
    XorUndoes(h1, x1);
    XorUndoes(h2, x2);
    XorCommutes(h1, x1);
    XorCommutes(h2, x2);
    XorUndoes(x1, h1);
    XorUndoes(x2, h2);
  }

  /** Every state is reached, from some state by a given sample word and by some word
      from a given state: each step is a bijection either way. */
  lemma MixReaches(h: U64, fixed: U64)
    ensures Mix(Xor64(Unmultiplied(h), fixed), fixed) == h
    ensures Mix(fixed, Xor64(Unmultiplied(h), fixed)) == h
  {
    var g := Unmultiplied(h);
    TimesPrimeReaches(h);
    XorUndoes(g, fixed);
    XorCommutes(fixed, Xor64(g, fixed));
  }

  function Fold(h: U64, audio: seq<I16>): U64 {
    if audio == [] then h else Mix(Fold(h, audio[..|audio| - 1]), Unsigned(audio[|audio| - 1]))
  }

  function Start(n: nat): U64 {
    Mix(BASIS, n % WORD)
  }

  function Fingerprint(audio: seq<I16>): U64 {
    Fold(Start(|audio|), audio)
  }

  method AudioFingerprint(audio: seq<I16>) returns (h: U64)
    ensures h == Fingerprint(audio)
  {
    h := BASIS;
    h := Xor64(h, |audio| % WORD);
    h := TimesPrime(h);
    for i := 0 to |audio|
      invariant h == Fold(Start(|audio|), audio[..i])
    {
      assert audio[..i + 1][..i] == audio[..i];
      h := Xor64(h, Unsigned(audio[i]));
      h := TimesPrime(h);
    }
    assert audio[..|audio|] == audio;
  }

  lemma {:induction false} FoldAppend(h: U64, a: seq<I16>, b: seq<I16>)
    ensures Fold(h, a + b) == Fold(Fold(h, a), b)
  {
    if b == [] {
      assert a + b == a;
    } else {
      assert (a + b)[..|a + b| - 1] == a + b[..|b| - 1];
      FoldAppend(h, a, b[..|b| - 1]);
    }
  }

  /** Two states that differ stay different over the same samples. */
  lemma {:induction false} FoldInjective(h1: U64, h2: U64, audio: seq<I16>)
    requires Fold(h1, audio) == Fold(h2, audio)
    ensures h1 == h2
  {
    if audio != [] {
      var init, x := audio[..|audio| - 1], Unsigned(audio[|audio| - 1]);
      MixInjective(Fold(h1, init), Fold(h2, init), x, x);
      FoldInjective(h1, h2, init);
    }
  }

  /** Changing exactly one sample always changes the fingerprint. */
  lemma OneSampleEditChangesIt(audio: seq<I16>, k: nat, x: I16)
    requires k < |audio| && x != audio[k]
    ensures Fingerprint(audio[k := x]) != Fingerprint(audio)
  {
    var head, tail, h := audio[..k], audio[k + 1..], Start(|audio|);
    assert audio == head + ([audio[k]] + tail);
    assert audio[k := x] == head + ([x] + tail);
    FoldAppend(h, head, [audio[k]] + tail);
    FoldAppend(h, head, [x] + tail);
    var g := Fold(h, head);
    FoldAppend(g, [audio[k]], tail);
    FoldAppend(g, [x], tail);
    assert [x][..0] == [] && [audio[k]][..0] == [];
    assert Fold(g, [x]) == Mix(g, Unsigned(x)) && Fold(g, [audio[k]]) == Mix(g, Unsigned(audio[k]));
    if Fingerprint(audio[k := x]) == Fingerprint(audio) {
      FoldInjective(Fold(g, [x]), Fold(g, [audio[k]]), tail);
      MixInjective(g, g, Unsigned(x), Unsigned(audio[k]));
    }
  }

  lemma MixApart(h: U64, m: U64, n: U64)
    requires m != n
    ensures Mix(h, m) != Mix(h, n)
  {
    if Mix(h, m) == Mix(h, n) {
      MixInjective(h, h, m, n);
    }
  }

  /** Buffers of different lengths start from different states. */
  lemma LengthIsHashed(m: nat, n: nat)
    requires m < WORD && n < WORD && m != n
    ensures Start(m) != Start(n)
  {
    MixApart(BASIS, m % WORD, n % WORD);
  }

  /** A sample is hashed as its 16-bit two's complement word. */
  lemma SampleWord(s: I16)
    ensures Unsigned(s) == s % 0x1_0000
  {
  }

  /** The empty buffer's. */
  lemma EmptyBuffer()
    ensures Fingerprint([]) == 0xaf63_bd4c_8601_b7df
  {
    assert Xor(BASIS, 0) == BASIS;
  }
}

/** One FFT pair of the incremental spectrogram
    (embedded-poc/embedded-shared/src/stage1_inc.rs, `pair_kernel_i16`): two audio
    rows are packed into one complex transform and separated again afterwards.

    The fixed-point code is modelled with its machine ranges: every local whose
    type is I32 or U32 is a place where the verifier shows that the arithmetic
    stays inside that range. */
module PairKernel {

  import opened Common

  datatype Cx = Cx(re: I16, im: I16)

  /** Complex integers without a machine range. */
  datatype Exact = Exact(re: int, im: int)

  const NSPS: nat := 1920
  const NMAX: nat := 180_000

  // ---- Packing ----------------------------------------------------------------

  lemma Pow2Small(shift: nat)
    requires shift <= 8
    ensures Pow2(shift) <= 256
  {
    assert Pow2(8) == 256 && Pow2(7) == 128 && Pow2(6) == 64 && Pow2(5) == 32;
    assert Pow2(4) == 16 && Pow2(3) == 8 && Pow2(2) == 4 && Pow2(1) == 2;
  }

  function Clamp16(x: int): I16 {
    if x < -0x8000 then -0x8000 else if x > 0x7fff then 0x7fff else x
  }

  /** The scaled sample that lands at transform index `k`: zero past the window
      and past the audio buffer. */
  function Packed(audio: seq<I16>, ia: nat, shift: nat, k: nat): I16 {
    if k < NSPS && ia + k < |audio| then Clamp16(audio[ia + k] * Pow2(shift)) else 0
  }

  function PackedPair(audio: seq<I16>, iaA: nat, iaB: nat, shift: nat, n: nat): seq<Cx> {
    seq(n, k requires 0 <= k < n => Cx(Packed(audio, iaA, shift, k), Packed(audio, iaB, shift, k)))
  }

  method ScaledSample(raw: I16, shift: nat) returns (r: I16)
    requires shift <= 8
    ensures r == Clamp16(raw * Pow2(shift))
  {
    Pow2Small(shift);
    ScaledBound(raw, Pow2(shift));
    var wide: I32 := raw * Pow2(shift);
    r := Clamp16(wide);
  }

  lemma ScaledBound(raw: int, p: nat)
    requires p <= 256 && -0x8000 <= raw <= 0x8000
    ensures -0x80_0000 <= raw * p <= 0x80_0000
  {
    var q := 256 - p;
    assert raw * 256 == raw * p + raw * q;
    if raw >= 0 {
      assert raw * p >= 0 && raw * q >= 0;
    } else {
      assert (-raw) * p >= 0 && (-raw) * q >= 0;
      assert raw * p == -((-raw) * p) && raw * q == -((-raw) * q);
    }
  }

  method PackPair(buf: array<Cx>, audio: array<I16>, iaA: nat, iaB: nat, shift: nat)
    requires shift <= 8 && audio.Length == NMAX
    modifies buf
    ensures buf[..] == PackedPair(audio[..], iaA, iaB, shift, buf.Length)
  {
    for k := 0 to buf.Length
      invariant forall j :: 0 <= j < k ==>
        buf[j] == Cx(Packed(audio[..], iaA, shift, j), Packed(audio[..], iaB, shift, j))
    {
      var re: I16, im: I16 := 0, 0;
      if k < NSPS && iaA + k < NMAX {
        re := ScaledSample(audio[iaA + k], shift);
      }
      if k < NSPS && iaB + k < NMAX {
        im := ScaledSample(audio[iaB + k], shift);
      }
      buf[k] := Cx(re, im);
    }
  }

  lemma WindowSample(a: seq<I16>, b: seq<I16>, ia: nat, k: nat)
    requires ia + NSPS <= |a| && ia + NSPS <= |b| && a[ia..ia + NSPS] == b[ia..ia + NSPS]
    ensures k < NSPS ==> a[ia + k] == b[ia + k]
  {
    if k < NSPS {
      assert a[ia + k] == a[ia..ia + NSPS][k] && b[ia + k] == b[ia..ia + NSPS][k];
    }
  }

  /** Packing looks at nothing but the two windows: audio that agrees on them
      packs identically. */
  lemma PackReadsWindows(a: seq<I16>, b: seq<I16>, iaA: nat, iaB: nat, shift: nat, n: nat)
    requires iaA + NSPS <= |a| && iaA + NSPS <= |b| && iaB + NSPS <= |a| && iaB + NSPS <= |b|
    requires a[iaA..iaA + NSPS] == b[iaA..iaA + NSPS] && a[iaB..iaB + NSPS] == b[iaB..iaB + NSPS]
    ensures PackedPair(a, iaA, iaB, shift, n) == PackedPair(b, iaA, iaB, shift, n)
  {
    forall k: nat | k < n
      ensures Packed(a, iaA, shift, k) == Packed(b, iaA, shift, k) && Packed(a, iaB, shift, k) == Packed(b, iaB, shift, k)
    {
      WindowSample(a, b, iaA, k);
      WindowSample(a, b, iaB, k);
    }
  }

  // ---- Separating -------------------------------------------------------------

  /** Arithmetic shift right by one: rounds toward minus infinity. */
  function Half(x: int): int {
    x / 2
  }

  /** Fixed-point level of a squared magnitude: `>> 12`, saturated to 16 bits. */
  function Level(power: nat): U16 {
    if power / 4096 > 0xffff then 0xffff else power / 4096
  }

  /** The first row's spectrum at bin `k`, by the one-bin formula. */
  function BinA(y: seq<Cx>, k: nat): Exact
    requires k < |y|
  {
    var yk, yn := y[k], y[Mirror(|y|, k)];
    Exact(Half(yk.re + yn.re), Half(yk.im - yn.im))
  }

  /** The second row's. */
  function BinB(y: seq<Cx>, k: nat): Exact
    requires k < |y|
  {
    var yk, yn := y[k], y[Mirror(|y|, k)];
    Exact(Half(yk.im + yn.im), Half(yn.re - yk.re))
  }

  function LevelA(y: seq<Cx>, k: nat): U16
    requires k < |y|
  {
    SquareSum(BinA(y, k).re, BinA(y, k).im)
  }

  function LevelB(y: seq<Cx>, k: nat): U16
    requires k < |y|
  {
    SquareSum(BinB(y, k).re, BinB(y, k).im)
  }

  function SquareSum(re: int, im: int): U16 {
    SquareNonNegative(re);
    SquareNonNegative(im);
    Level(re * re + im * im)
  }

  lemma SquareNonNegative(x: int)
    ensures x * x >= 0
  {
  }

  lemma SquareMonotone(a: nat, b: nat)
    requires a <= b
    ensures a * a <= b * b
  {
    var d := b - a;
    assert b * b == a * a + 2 * (a * d) + d * d;
  }

  lemma SquareBound(x: int)
    requires -0x8000 <= x <= 0x8000
    ensures 0 <= x * x <= 0x4000_0000
  {
    SquareMonotone(if x < 0 then -x else x, 0x8000);
    assert x * x == (-x) * (-x);
  }

  /** The four half-sums of a bin pair, in i32. */
  method SquaredLevel(re2: I32, im2: I32) returns (level: U16)
    requires -0x1_0000 <= re2 <= 0xffff && -0x1_0000 <= im2 <= 0xffff
    ensures level == SquareSum(Half(re2), Half(im2))
  {
    var re: I32, im: I32 := Half(re2), Half(im2);
    SquareBound(re);
    SquareBound(im);
    var r2: I32, i2: I32 := re * re, im * im;
    var power: U32 := r2 + i2;
    level := Level(power);
  }

  /** The levels of bin `k` of both rows, for a bin that is not its own mirror. */
  method DemuxBin(buf: array<Cx>, k: nat) returns (a: U16, b: U16)
    requires 1 <= k < buf.Length
    ensures a == LevelA(buf[..], k) && b == LevelB(buf[..], k)
  {
    var yk, yn := buf[k], buf[buf.Length - k];
    assert Mirror(buf.Length, k) == buf.Length - k;
    a := SquaredLevel(yk.re + yn.re, yk.im - yn.im);
    b := SquaredLevel(yk.im + yn.im, yn.re - yk.re);
  }

  /** The hoisted DC bin: its mirror is itself, so half of each sum is the value
      itself and the differences vanish. */
  method DemuxDc(buf: array<Cx>) returns (a: U16, b: U16)
    requires buf.Length > 0
    ensures a == LevelA(buf[..], 0) && b == LevelB(buf[..], 0)
  {
    var r0: I32, i0: I32 := buf[0].re, buf[0].im;
    SquareBound(r0);
    SquareBound(i0);
    var r2: I32, i2: I32 := r0 * r0, i0 * i0;
    a := Level(r2);
    b := Level(i2);
    assert Mirror(buf.Length, 0) == 0;
    assert Half(r0 + r0) == r0 && Half(i0 + i0) == i0;
  }

  /** Bins below `k` of both rows hold the one-bin formula's levels. */
  ghost predicate BinsDone(s: seq<U16>, y: seq<Cx>, rowA: nat, rowB: nat, k: nat)
    requires k <= |y| && rowA + k <= |s| && rowB + k <= |s|
  {
    forall j :: 0 <= j < k ==> s[rowA + j] == LevelA(y, j) && s[rowB + j] == LevelB(y, j)
  }

  /** Nothing outside the two rows differs. */
  ghost predicate OnlyRows(s: seq<U16>, s0: seq<U16>, rowA: nat, rowB: nat, nFreq: nat) {
    && |s| == |s0|
    && forall i :: 0 <= i < |s| && !(rowA <= i < rowA + nFreq) && !(rowB <= i < rowB + nFreq) ==> s[i] == s0[i]
  }

  /** One bin of the loop body: compute and store. */
  method StoreBin(buf: array<Cx>, k: nat, spec: array<U16>, rowA: nat, rowB: nat, nFreq: nat, ghost s0: seq<U16>)
    requires 1 <= k < nFreq && 2 * nFreq <= buf.Length
    requires rowA + nFreq <= spec.Length && rowB + nFreq <= spec.Length
    requires rowA + nFreq <= rowB || rowB + nFreq <= rowA
    requires BinsDone(spec[..], buf[..], rowA, rowB, k) && OnlyRows(spec[..], s0, rowA, rowB, nFreq)
    modifies spec
    ensures BinsDone(spec[..], buf[..], rowA, rowB, k + 1) && OnlyRows(spec[..], s0, rowA, rowB, nFreq)
  {
    var a, b := DemuxBin(buf, k);
    spec[rowA + k], spec[rowB + k] := a, b;
  }

  /** The demux loop: DC hoisted, the rest four bins at a time with a one-bin
      tail. Every bin ends up with the one-bin formula's level. */
  method Demux(buf: array<Cx>, nFreq: nat, spec: array<U16>, rowA: nat, rowB: nat)
    requires 2 * nFreq <= buf.Length
    requires rowA + nFreq <= spec.Length && rowB + nFreq <= spec.Length
    requires rowA + nFreq <= rowB || rowB + nFreq <= rowA
    modifies spec
    ensures BinsDone(spec[..], buf[..], rowA, rowB, nFreq)
    ensures OnlyRows(spec[..], old(spec[..]), rowA, rowB, nFreq)
  {
    if nFreq == 0 { return; }
    ghost var s0 := spec[..];
    var a, b := DemuxDc(buf);
    spec[rowA], spec[rowB] := a, b;
    var k := 1;
    while k + 4 <= nFreq
      invariant 1 <= k <= nFreq
      invariant BinsDone(spec[..], buf[..], rowA, rowB, k) && OnlyRows(spec[..], s0, rowA, rowB, nFreq)
    {
      StoreBin(buf, k, spec, rowA, rowB, nFreq, s0);
      StoreBin(buf, k + 1, spec, rowA, rowB, nFreq, s0);
      StoreBin(buf, k + 2, spec, rowA, rowB, nFreq, s0);
      StoreBin(buf, k + 3, spec, rowA, rowB, nFreq, s0);
      k := k + 4;
    }
    while k < nFreq
      invariant 1 <= k <= nFreq
      invariant BinsDone(spec[..], buf[..], rowA, rowB, k) && OnlyRows(spec[..], s0, rowA, rowB, nFreq)
    {
      StoreBin(buf, k, spec, rowA, rowB, nFreq, s0);
      k := k + 1;
    }
  }

  /** What one pair contributes to the spectrogram. */
  function PairRows(fft: seq<Cx> -> seq<Cx>, audio: seq<I16>, iaA: nat, iaB: nat, shift: nat, n: nat, nFreq: nat)
    : (rows: (seq<U16>, seq<U16>))
    requires forall s :: |s| == n ==> |fft(s)| == n
    requires nFreq <= n
    ensures |rows.0| == |rows.1| == nFreq
  {
    var y := fft(PackedPair(audio, iaA, iaB, shift, n));
    (seq(nFreq, k requires 0 <= k < nFreq => LevelA(y, k)), seq(nFreq, k requires 0 <= k < nFreq => LevelB(y, k)))
  }

  /** `pair_kernel_i16`: pack, transform in place, separate into two rows. */
  method PairKernelI16(fft: seq<Cx> -> seq<Cx>, buf: array<Cx>, audio: array<I16>, iaA: nat, iaB: nat, shift: nat,
                       nFreq: nat, spec: array<U16>, rowA: nat, rowB: nat)
    requires forall s :: |s| == buf.Length ==> |fft(s)| == buf.Length
    requires shift <= 8 && audio.Length == NMAX && 2 * nFreq <= buf.Length
    requires rowA + nFreq <= spec.Length && rowB + nFreq <= spec.Length
    requires rowA + nFreq <= rowB || rowB + nFreq <= rowA
    modifies buf, spec
    ensures
      var rows := PairRows(fft, old(audio[..]), iaA, iaB, shift, buf.Length, nFreq);
      spec[rowA..rowA + nFreq] == rows.0 && spec[rowB..rowB + nFreq] == rows.1
    ensures OnlyRows(spec[..], old(spec[..]), rowA, rowB, nFreq)
  {
    PackPair(buf, audio, iaA, iaB, shift);
    var y := fft(buf[..]);
    forall k | 0 <= k < buf.Length {
      buf[k] := y[k];
    }
    assert buf[..] == y;
    Demux(buf, nFreq, spec, rowA, rowB);
  }

  // ---- Why the formula separates the rows ---------------------------------------

  ghost predicate Hermitian(s: seq<Exact>) {
    forall k :: 0 <= k < |s| ==> s[Mirror(|s|, k)] == Exact(s[k].re, -s[k].im)
  }

  /** If the transform output is A + iB with A and B the transforms of two real
      rows, the half-sums are exactly A[k] and B[k]: nothing is lost to the
      shift. */
  lemma DemuxSeparates(y: seq<Cx>, a: seq<Exact>, b: seq<Exact>, k: nat)
    requires |y| == |a| == |b| && k < |y|
    requires Hermitian(a) && Hermitian(b)
    requires forall j :: 0 <= j < |y| ==> y[j].re == a[j].re - b[j].im && y[j].im == a[j].im + b[j].re
    ensures BinA(y, k) == a[k] && BinB(y, k) == b[k]
  {
    var m := Mirror(|y|, k);
    assert a[m] == Exact(a[k].re, -a[k].im) && b[m] == Exact(b[k].re, -b[k].im);
    HalfTwice(y[k].re + y[m].re, a[k].re);
    HalfTwice(y[k].im - y[m].im, a[k].im);
    HalfTwice(y[k].im + y[m].im, b[k].re);
    HalfTwice(y[m].re - y[k].re, b[k].im);
  }

  lemma HalfTwice(x: int, h: int)
    requires x == 2 * h
    ensures Half(x) == h
  {
  }
}

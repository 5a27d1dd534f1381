/** Which samples each row of the incremental spectrogram is made of
    (embedded-poc/embedded-shared/src/stage1_inc.rs, `compute_pair_into` and
    `pair_kernel_i16`), written out: row m is the spectrum of the 1920 samples from
    960 m on, at the slot's gain. */
module Stage1Windows {

  import opened Common
  import opened PairKernel
  import opened Stage1
  import opened Stage1Runs

  // ---- One row, from the samples ----------------------------------------------------------

  /** A sample shifted up by the gain, saturated to 16 bits. */
  function Loud(x: I16, shift: nat): I16 {
    var wide := x * Pow2(shift);
    if wide > 32_767 then 32_767 else if wide < -32_768 then -32_768 else wide
  }

  /** Row m's window: 1920 samples from 960 m on, then zeros up to the transform's size. */
  function Window(audio: seq<I16>, m: nat, shift: nat, n: nat): (w: seq<I16>)
    requires 960 * m + 1920 <= |audio|
    ensures |w| == n
  {
    seq(n, i requires 0 <= i < n => WindowAt(audio, m, shift, i))
  }

  function WindowAt(audio: seq<I16>, m: nat, shift: nat, i: nat): I16
    requires 960 * m + 1920 <= |audio|
  {
    if i < 1920 then Loud(audio[960 * m + i], shift) else 0
  }

  /** Two windows as one complex row. */
  function AsOne(a: seq<I16>, b: seq<I16>): (y: seq<Cx>)
    requires |a| == |b|
    ensures |y| == |a|
  {
    seq(|a|, i requires 0 <= i < |a| => Cx(a[i], b[i]))
  }

  /** The 16-bit level of a spectral value. */
  function Power(re: int, im: int): int {
    var p := (re * re + im * im) / 4096;
    if p > 65_535 then 65_535 else p
  }

  /** The level of either row of a pair at bin k: the half-sums of bins k and -k of the
      pair's transform. */
  function LevelIn(y: seq<Cx>, first: bool, k: nat): int
    requires k < |y|
  {
    var u, v := y[k], y[if k == 0 then 0 else |y| - k];
    if first then Power((u.re + v.re) / 2, (u.im - v.im) / 2)
    else Power((u.im + v.im) / 2, (v.re - u.re) / 2)
  }

  /** The level of row m at bin k, from the pair it belongs to. */
  function LevelOf(c: Config, audio: seq<I16>, shift: nat, m: nat, k: nat): int
    requires Sane(c) && k < c.nFreq && 960 * (m / 2 * 2) + 2880 <= |audio|
  {
    var j := m / 2 * 2;
    LevelIn(c.fft(AsOne(Window(audio, j, shift, c.n), Window(audio, j + 1, shift, c.n))), m == j, k)
  }

  /** Row m, every bin; nothing if the pair's windows are not all there. */
  function Levels(c: Config, audio: seq<I16>, shift: nat, m: nat): seq<int>
    requires Sane(c)
  {
    if 960 * (m / 2 * 2) + 2880 <= |audio|
    then seq(c.nFreq, k requires 0 <= k < c.nFreq => LevelOf(c, audio, shift, m, k))
    else []
  }

  /** Row m of a flat spectrogram of `width` bins a row. */
  function RowOf(spec: seq<U16>, m: nat, width: nat): seq<int> {
    if m * width + width <= |spec| then spec[m * width..m * width + width] else []
  }

  lemma WindowsPacked(c: Config, audio: seq<I16>, shift: nat, j: nat)
    requires Sane(c) && 1920 * j + 2880 <= |audio|
    ensures
      AsOne(Window(audio, 2 * j, shift, c.n), Window(audio, 2 * j + 1, shift, c.n))
      == PackedPair(audio, 2 * j * NSTEP, (2 * j + 1) * NSTEP, shift, c.n)
  {
    forall i: nat | i < c.n
      ensures Packed(audio, 2 * j * NSTEP, shift, i) == WindowAt(audio, 2 * j, shift, i)
      ensures Packed(audio, (2 * j + 1) * NSTEP, shift, i) == WindowAt(audio, 2 * j + 1, shift, i)
    {
    }
  }

  lemma LevelIsPower(re: int, im: int)
    ensures SquareSum(re, im) == Power(re, im)
  {
    SquareNonNegative(re);
    SquareNonNegative(im);
  }

  lemma LevelsAre(y: seq<Cx>, k: nat)
    requires k < |y|
    ensures LevelA(y, k) == LevelIn(y, true, k) && LevelB(y, k) == LevelIn(y, false, k)
  {
    LevelIsPower(BinA(y, k).re, BinA(y, k).im);
    LevelIsPower(BinB(y, k).re, BinB(y, k).im);
  }

  lemma PairLevels(c: Config, audio: seq<I16>, shift: nat, j: nat)
    requires Sane(c) && 1920 * j + 2880 <= |audio|
    ensures Rows(c, audio, j, shift).0 == Levels(c, audio, shift, 2 * j)
    ensures Rows(c, audio, j, shift).1 == Levels(c, audio, shift, 2 * j + 1)
  {
    WindowsPacked(c, audio, shift, j);
    assert 2 * j / 2 * 2 == 2 * j && (2 * j + 1) / 2 * 2 == 2 * j;
    var y := c.fft(PackedPair(audio, 2 * j * NSTEP, (2 * j + 1) * NSTEP, shift, c.n));
    forall k: nat | k < c.nFreq
      ensures LevelA(y, k) == LevelOf(c, audio, shift, 2 * j, k) && LevelB(y, k) == LevelOf(c, audio, shift, 2 * j + 1, k)
    {
      LevelsAre(y, k);
    }
  }

  lemma RowOfIs(c: Config, spec: seq<U16>, m: nat)
    requires Sane(c) && |spec| == SpecLen(c) && m < N_TIME
    ensures RowOf(spec, m, c.nFreq) == RowAt(c, spec, m)
  {
    OffIsProduct(m, c.nFreq);
    RowFits(m, N_TIME, c.nFreq);
  }

  /** Every computed row of a spectrogram holds, at every bin, that level. */
  lemma SpectrumLevels(c: Config, audio: seq<I16>, shift: nat, spec: seq<U16>, from: nat, pairs: nat, m: nat)
    requires Sane(c) && RowsBetween(c, audio, shift, spec, from, pairs)
    requires 2 * from <= m < 2 * pairs && m < 184 && Need(pairs - 1) <= |audio|
    ensures 960 * (m / 2 * 2) + 2880 <= |audio|
    ensures RowOf(spec, m, c.nFreq) == Levels(c, audio, shift, m)
  {
    var j := m / 2;
    assert Need(j) == 1920 * j + 2880 && Need(j) <= Need(pairs - 1);
    RowOfIs(c, spec, m);
    PairLevels(c, audio, shift, j);
    assert RowAt(c, spec, m) == WantedRow(c, audio, shift, from, pairs, m);
  }

  lemma ZeroRow(c: Config, audio: seq<I16>, shift: nat, spec: seq<U16>, pairs: nat, m: nat)
    requires Sane(c) && RowsFilled(c, audio, shift, spec, pairs) && 2 * pairs <= m < 184
    ensures RowOf(spec, m, c.nFreq) == Zeros(c.nFreq)
  {
    RowOfIs(c, spec, m);
    assert RowAt(c, spec, m) == WantedRow(c, audio, shift, 0, pairs, m);
  }

  // ---- The slot's own spectrograms -----------------------------------------------------------

  /** The bundle that has left for the slot in progress: row m of its valid rows is at
      every bin the level of the 1920 samples from 960 m on (with the pair's other window
      beside them in the transform); all rows past them are zero. */
  lemma BundleLevels(c: Config, b0: seq<I16>, b1: seq<I16>, ms: seq<Msg>, m: nat)
    requires Sane(c) && Buffers(b0, b1) && Run(c, b0, b1, ms).cur.sent && m < 184
    ensures
      var s, audio := Run(c, b0, b1, ms), Accepted(ms);
      |s.bundles| > 0 &&
      var b := s.bundles[|s.bundles| - 1];
      if m < b.validRows
      then 960 * (m / 2 * 2) + 2880 <= |audio| && RowOf(b.spec, m, c.nFreq) == Levels(c, audio, s.cur.shift, m)
      else RowOf(b.spec, m, c.nFreq) == Zeros(c.nFreq)
  {
    SentBundleIsTheSpectrum(c, b0, b1, ms);
    SentBundleIsAPrefix(c, b0, b1, ms);
    var s := Run(c, b0, b1, ms);
    var b := s.bundles[|s.bundles| - 1];
    var pairs := PairsFor(c, b.audioLen);
    if m < b.validRows {
      assert Need(pairs - 1) <= b.audioLen;
      SpectrumLevels(c, Accepted(ms), s.cur.shift, b.spec, 0, pairs, m);
    } else {
      ZeroRow(c, Accepted(ms), s.cur.shift, b.spec, pairs, m);
    }
  }

  /** Row m has been computed and is still in the slot in progress. */
  predicate Present(c: Config, s: State, m: nat) {
    && m < 184 && m < 2 * s.cur.nextPair
    && (s.cur.sent ==> c.wf && |s.bundles| > 0 && s.bundles[|s.bundles| - 1].validRows <= m)
  }

  /** The spectrogram of the slot in progress holds the same of every row of the pairs
      computed, or computed since its bundle left. */
  lemma ProgressLevels(c: Config, b0: seq<I16>, b1: seq<I16>, ms: seq<Msg>, m: nat)
    requires Sane(c) && Buffers(b0, b1) && Present(c, Run(c, b0, b1, ms), m)
    ensures
      var s, audio := Run(c, b0, b1, ms), Accepted(ms);
      960 * (m / 2 * 2) + 2880 <= |audio| && RowOf(s.cur.spec, m, c.nFreq) == Levels(c, audio, s.cur.shift, m)
  {
    RunInv(c, b0, b1, ms);
    PresentLevels(c, Accepted(ms), Run(c, b0, b1, ms), m);
  }

  lemma PresentLevels(c: Config, audio: seq<I16>, s: State, m: nat)
    requires Inv(c, audio, s) && Present(c, s, m)
    ensures 960 * (m / 2 * 2) + 2880 <= |audio| && RowOf(s.cur.spec, m, c.nFreq) == Levels(c, audio, s.cur.shift, m)
  {
    var from := if s.cur.sent then PairsFor(c, s.bundles[|s.bundles| - 1].audioLen) else 0;
    assert s.cur.sent ==> from < N_PAIRS;
    SpectrumLevels(c, audio, s.cur.shift, s.cur.spec, from, s.cur.nextPair, m);
  }

  // ---- Each row by itself ------------------------------------------------------------------------

  /** The transform is exact: of a packed pair of real rows it is the one's spectrum plus
      i times the other's, each Hermitian. `of` is the spectrum of one real row. */
  ghost predicate ExactOn(c: Config, of: seq<I16> -> seq<Exact>, a: seq<I16>, b: seq<I16>)
    requires |a| == |b|
  {
    var y := c.fft(AsOne(a, b));
    && |a| == c.n && |y| == |of(a)| == |of(b)| == c.n && Hermitian(of(a)) && Hermitian(of(b))
    && forall i :: 0 <= i < c.n ==> y[i].re == of(a)[i].re - of(b)[i].im && y[i].im == of(a)[i].im + of(b)[i].re
  }

  /** The two rows' levels are then those of the two spectra. */
  lemma LevelsSeparate(y: seq<Cx>, a: seq<Exact>, b: seq<Exact>, k: nat)
    requires |y| == |a| == |b| && k < |y| && Hermitian(a) && Hermitian(b)
    requires forall j :: 0 <= j < |y| ==> y[j].re == a[j].re - b[j].im && y[j].im == a[j].im + b[j].re
    ensures LevelIn(y, true, k) == Power(a[k].re, a[k].im) && LevelIn(y, false, k) == Power(b[k].re, b[k].im)
  {
    DemuxSeparates(y, a, b, k);
    LevelInIs(y, k);
  }

  lemma LevelInIs(y: seq<Cx>, k: nat)
    requires k < |y|
    ensures LevelIn(y, true, k) == Power(BinA(y, k).re, BinA(y, k).im)
    ensures LevelIn(y, false, k) == Power(BinB(y, k).re, BinB(y, k).im)
  {
  }

  lemma EitherRow(c: Config, of: seq<I16> -> seq<Exact>, a: seq<I16>, b: seq<I16>, first: bool, k: nat)
    requires |a| == |b| && ExactOn(c, of, a, b) && k < c.n
    ensures |c.fft(AsOne(a, b))| == |of(a)| == |of(b)| == c.n
    ensures
      var x := of(if first then a else b)[k];
      LevelIn(c.fft(AsOne(a, b)), first, k) == Power(x.re, x.im)
  {
    LevelsSeparate(c.fft(AsOne(a, b)), of(a), of(b), k);
  }

  lemma PairOf(m: nat)
    ensures m / 2 * 2 == m || m / 2 * 2 + 1 == m
  {
  }

  lemma LevelOfEither(c: Config, audio: seq<I16>, shift: nat, m: nat, j: nat, k: nat)
    requires Sane(c) && k < c.nFreq && m / 2 * 2 == j && 960 * j + 2880 <= |audio|
    ensures
      LevelOf(c, audio, shift, m, k)
      == LevelIn(c.fft(AsOne(Window(audio, j, shift, c.n), Window(audio, j + 1, shift, c.n))), m == j, k)
  {
  }

  /** Then row m depends on its own window alone: its level at bin k is that of the
      window's spectrum there. */
  lemma RowOfItsWindow(c: Config, of: seq<I16> -> seq<Exact>, audio: seq<I16>, shift: nat, m: nat, k: nat)
    requires Sane(c) && k < c.nFreq && 960 * (m / 2 * 2) + 2880 <= |audio|
    requires
      var j := m / 2 * 2;
      ExactOn(c, of, Window(audio, j, shift, c.n), Window(audio, j + 1, shift, c.n))
    ensures |of(Window(audio, m, shift, c.n))| == c.n
    ensures
      var x := of(Window(audio, m, shift, c.n))[k];
      LevelOf(c, audio, shift, m, k) == Power(x.re, x.im)
  {
    var j := m / 2 * 2;
    PairOf(m);
    LevelOfEither(c, audio, shift, m, j, k);
    EitherRow(c, of, Window(audio, j, shift, c.n), Window(audio, j + 1, shift, c.n), m == j, k);
  }

  /** So audio that agrees on that window has that row, wherever else it differs. */
  lemma RowReadsItsWindow(c: Config, of: seq<I16> -> seq<Exact>, a: seq<I16>, b: seq<I16>, shift: nat, m: nat, k: nat)
    requires Sane(c) && k < c.nFreq && 960 * (m / 2 * 2) + 2880 <= |a| && 960 * (m / 2 * 2) + 2880 <= |b|
    requires
      var j := m / 2 * 2;
      && ExactOn(c, of, Window(a, j, shift, c.n), Window(a, j + 1, shift, c.n))
      && ExactOn(c, of, Window(b, j, shift, c.n), Window(b, j + 1, shift, c.n))
    requires forall i :: 960 * m <= i < 960 * m + 1920 ==> a[i] == b[i]
    ensures LevelOf(c, a, shift, m, k) == LevelOf(c, b, shift, m, k)
  {
    RowOfItsWindow(c, of, a, shift, m, k);
    RowOfItsWindow(c, of, b, shift, m, k);
    assert Window(a, m, shift, c.n) == Window(b, m, shift, c.n);
  }
}

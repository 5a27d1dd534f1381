/** The per-carrier tone sums of the incremental spectrogram
    (embedded-poc/embedded-shared/src/stage1_inc.rs, `band_for`, `n_freq_for`,
    `update_one_half`): a sliding window with one running sum per parity in place
    of seven additions per carrier. */
module Allsum {

  import opened Common

  /** An f32 that has only ever held integers below 2^24: addition and
      subtraction on such values do not round. */
  type F32Int = x: int | -0x100_0000 < x < 0x100_0000

  const NTONES: nat := 8
  const N_TIME: nat := 184

  // ---- The direct sum ---------------------------------------------------------

  /** The bin tone `k` of carrier bin `c` reads, clamped to the top bin. */
  function ToneBin(upper: nat, c: nat, k: nat): nat {
    if c + 2 * k <= upper then c + 2 * k else upper
  }

  /** Tones 0..n-1 of one carrier, added up. */
  function ToneSum(row: seq<U16>, c: nat, n: nat): (s: int)
    requires |row| > 0
    ensures 0 <= s <= n * 0xffff
  {
    if n == 0 then 0 else ToneSum(row, c, n - 1) + row[ToneBin(|row| - 1, c, n - 1)]
  }

  /** The seven Costas tones of carrier bin `c`. */
  function CarrierSum(row: seq<U16>, c: nat): (s: int)
    requires |row| > 0
    ensures 0 <= s <= 7 * 0xffff
  {
    ToneSum(row, c, NTONES - 1)
  }

  /** The carrier two bins up shares every tone but one: it gains the next tone
      and drops the first. */
  lemma {:induction false} SlideSum(row: seq<U16>, c: nat, n: nat)
    requires |row| > 0
    ensures ToneSum(row, c + 2, n) + row[ToneBin(|row| - 1, c, 0)]
         == ToneSum(row, c, n) + row[ToneBin(|row| - 1, c, n)]
  {
    if n > 0 {
      SlideSum(row, c, n - 1);
      assert ToneBin(|row| - 1, c + 2, n - 1) == ToneBin(|row| - 1, c, n);
    }
  }

  // ---- The sliding window ------------------------------------------------------

  /** Where carrier `fi` of time row `m` is stored. */
  function Cell(fi: nat, m: nat): nat {
    fi * N_TIME + m
  }

  /** Column `m` holds the direct sum of the first `n` carriers. */
  ghost predicate ColumnDone(dst: seq<F32Int>, row: seq<U16>, ia: nat, m: nat, n: nat)
    requires |row| > 0
  {
    forall fi: nat :: fi < n ==> Cell(fi, m) < |dst| && dst[Cell(fi, m)] == CarrierSum(row, ia + fi)
  }

  /** No other column changed. */
  ghost predicate OnlyColumn(dst: seq<F32Int>, dst0: seq<F32Int>, m: nat) {
    |dst| == |dst0| && forall i :: 0 <= i < |dst| && i % N_TIME != m ==> dst[i] == dst0[i]
  }

  lemma StoreCell(dst: seq<F32Int>, dst0: seq<F32Int>, row: seq<U16>, ia: nat, m: nat, n: nat)
    requires |row| > 0 && m < N_TIME && Cell(n, m) < |dst|
    requires ColumnDone(dst, row, ia, m, n) && OnlyColumn(dst, dst0, m)
    ensures
      var dst' := dst[Cell(n, m) := CarrierSum(row, ia + n)];
      ColumnDone(dst', row, ia, m, n + 1) && OnlyColumn(dst', dst0, m)
  {
  }

  /** A seed: the seven tones of one carrier added directly. */
  method SeedSum(row: seq<U16>, c: nat) returns (s: F32Int)
    requires |row| > 0
    ensures s == CarrierSum(row, c)
  {
    s := 0;
    for k := 0 to NTONES - 1
      invariant s == ToneSum(row, c, k)
    {
      s := s + row[ToneBin(|row| - 1, c, k)];
    }
  }

  /** A slide: carrier c from carrier c - 2, one addition and one subtraction. */
  method SlideStep(row: seq<U16>, c: nat, prev: F32Int) returns (s: F32Int)
    requires |row| > 0 && c >= 2 && prev == CarrierSum(row, c - 2)
    ensures s == CarrierSum(row, c)
  {
    var upper := |row| - 1;
    var drop, add := ToneBin(upper, c - 2, 0), ToneBin(upper, c, NTONES - 2);
    SlideSum(row, c - 2, NTONES - 1);
    assert add == ToneBin(upper, c - 2, NTONES - 1);
    var raised: F32Int := prev + row[add];
    s := raised - row[drop];
  }

  /** `update_one_half`: one spectrogram row `m` into column `m` of the half's
      sums. Every carrier's entry is the direct clamped sum, and every running
      value, including the one between the addition and the subtraction, is an
      integer an f32 holds exactly. */
  method UpdateOneHalf(m: nat, ia: nat, nFreq: nat, row: seq<U16>, dst: array<F32Int>)
    requires m < N_TIME && |row| > 0 && dst.Length == nFreq * N_TIME
    modifies dst
    ensures ColumnDone(dst[..], row, ia, m, nFreq) && OnlyColumn(dst[..], old(dst[..]), m)
  {
    if nFreq == 0 { return; }
    ghost var dst0 := dst[..];
    var even := SeedSum(row, ia);
    StoreCell(dst[..], dst0, row, ia, m, 0);
    dst[Cell(0, m)] := even;
    if nFreq == 1 { return; }
    var odd := SeedSum(row, ia + 1);
    StoreCell(dst[..], dst0, row, ia, m, 1);
    dst[Cell(1, m)] := odd;
    var prev := (even, odd);
    for fi := 2 to nFreq
      invariant ColumnDone(dst[..], row, ia, m, fi) && OnlyColumn(dst[..], dst0, m)
      invariant (if fi % 2 == 0 then prev.0 else prev.1) == CarrierSum(row, ia + fi - 2)
      invariant (if fi % 2 == 0 then prev.1 else prev.0) == CarrierSum(row, ia + fi - 1)
    {
      var s := SlideStep(row, ia + fi, if fi % 2 == 0 then prev.0 else prev.1);
      StoreCell(dst[..], dst0, row, ia, m, fi);
      dst[Cell(fi, m)] := s;
      prev := if fi % 2 == 0 then (s, prev.1) else (prev.0, s);
    }
  }

  /** Bringing every finished row in, one column per row, leaves the whole table
      of direct sums; columns of rows not finished yet are untouched. */
  method AccumulateRows(rows: seq<seq<U16>>, ia: nat, nFreq: nat, dst: array<F32Int>)
    requires |rows| <= N_TIME && dst.Length == nFreq * N_TIME
    requires forall m :: 0 <= m < |rows| ==> |rows[m]| > 0
    modifies dst
    ensures forall m: nat :: m < |rows| ==> ColumnDone(dst[..], rows[m], ia, m, nFreq)
    ensures forall i :: 0 <= i < dst.Length && i % N_TIME >= |rows| ==> dst[i] == old(dst[i])
  {
    for m := 0 to |rows|
      invariant forall j: nat :: j < m ==> ColumnDone(dst[..], rows[j], ia, j, nFreq)
      invariant forall i :: 0 <= i < dst.Length && i % N_TIME >= |rows| ==> dst[i] == old(dst[i])
    {
      ghost var before := dst[..];
      UpdateOneHalf(m, ia, nFreq, rows[m], dst);
      forall j: nat | j < m ensures ColumnDone(dst[..], rows[j], ia, j, nFreq) {
        forall fi: nat | fi < nFreq ensures dst[..][Cell(fi, j)] == before[Cell(fi, j)] {
          assert Cell(fi, j) % N_TIME == j;
        }
      }
    }
  }

  function Bin(row: seq<U16>, i: nat): int
    requires i < |row|
  {
    row[i]
  }

  /** Where no tone is clamped the sum is that of the seven bins two apart. */
  lemma SevenTones(row: seq<U16>, c: nat)
    requires c + 12 < |row|
    ensures CarrierSum(row, c)
         == Bin(row, c) + Bin(row, c + 2) + Bin(row, c + 4) + Bin(row, c + 6) + Bin(row, c + 8) + Bin(row, c + 10) + Bin(row, c + 12)
  {
    assert ToneSum(row, c, 1) == Bin(row, c);
    assert ToneSum(row, c, 2) == Bin(row, c) + Bin(row, c + 2);
    assert ToneSum(row, c, 4) == Bin(row, c) + Bin(row, c + 2) + Bin(row, c + 4) + Bin(row, c + 6);
    assert ToneSum(row, c, 6) == ToneSum(row, c, 4) + Bin(row, c + 8) + Bin(row, c + 10);
  }

  // ---- The bands ---------------------------------------------------------------

  /** Spacing of the spectrogram bins: 12000 / 3840 Hz. */
  const DF := 3.125

  /** Nearest integer, ties away from zero, of a non-negative value. */
  function Round(x: real): nat
    requires x >= 0.0
  {
    (x + 0.5).Floor
  }

  function Ceil(x: real): int {
    if x == x.Floor as real then x.Floor else x.Floor + 1
  }

  /** `n_freq_for`: bins up to the top tone of the top carrier, at most half the
      transform. */
  function NFreqFor(maxFreq: real): int {
    var bins := Ceil((maxFreq + 8.0 * 6.25) / DF) + 1;
    if bins < 1920 then bins else 1920
  }

  /** `band_for`: first carrier bin and carrier count of a half. The tone step is
      exactly two bins, so the widest tone offset plus one is 15. */
  function BandFor(freqMin: real, freqMax: real, specNFreq: nat): (int, int)
    requires 0.0 <= freqMin && 0.0 <= freqMax
  {
    var ia := Round(freqMin / DF);
    var maxToneOff := Ceil(7.0 * (6.25 / DF)) + 1;
    var top := if specNFreq >= maxToneOff then specNFreq - maxToneOff else 0;
    var unbounded := Round(freqMax / DF);
    var ib := if unbounded < top then unbounded else top;
    (ia, ib - ia + 1)
  }

  /** Nearest means within half a bin. */
  lemma RoundIsNearest(x: real)
    requires x >= 0.0
    ensures Round(x) as real - 0.5 <= x < Round(x) as real + 0.5
  {
  }

  /** A band runs from the bin nearest to its lower edge to the one nearest to its upper
      edge, or to the fifteenth bin from the top if that is lower. */
  lemma BandEdges(freqMin: real, freqMax: real, specNFreq: nat)
    requires 0.0 <= freqMin && 0.0 <= freqMax && specNFreq >= 15
    ensures
      var (ia, n) := BandFor(freqMin, freqMax, specNFreq);
      var last := ia + n - 1;
      && ia as real - 0.5 <= freqMin / 3.125 < ia as real + 0.5
      && last <= specNFreq - 15 && last as real - 0.5 <= freqMax / 3.125
      && (last < specNFreq - 15 ==> freqMax / 3.125 < last as real + 0.5)
  {
    assert 7.0 * (6.25 / DF) == 14.0 && Ceil(14.0) == 14;
    RoundIsNearest(freqMin / DF);
    RoundIsNearest(freqMax / DF);
  }

  /** The spectrogram reaches eight tones past the top carrier, and no further than
      half the transform. */
  lemma BinsReachTheTop(maxFreq: real)
    requires 0.0 <= maxFreq
    ensures NFreqFor(maxFreq) < 1920 ==>
      (NFreqFor(maxFreq) - 2) as real < (maxFreq + 50.0) / 3.125 <= (NFreqFor(maxFreq) - 1) as real
  {
  }

  /** No tone of the carrier is clamped. */
  ghost predicate Unclamped(specNFreq: nat, carrier: nat)
    requires specNFreq > 0
  {
    forall k: nat :: k < NTONES - 1 ==> ToneBin(specNFreq - 1, carrier, k) == carrier + 2 * k
  }

  lemma TonesFit(specNFreq: nat, carrier: nat)
    requires specNFreq > 0
    ensures Unclamped(specNFreq, carrier) <==> carrier + 12 < specNFreq
  {
    if Unclamped(specNFreq, carrier) {
      assert ToneBin(specNFreq - 1, carrier, 6) == carrier + 12;
    }
  }

  /** In a band `band_for` yields, the clamp in the tone sums fires for no carrier, or,
      over a spectrogram of fewer than 13 bins, for the only one. */
  lemma BandsNeverClamp(freqMin: real, freqMax: real, specNFreq: nat, fi: nat)
    requires 0.0 <= freqMin && 0.0 <= freqMax && specNFreq > 0
    requires fi < BandFor(freqMin, freqMax, specNFreq).1
    ensures Unclamped(specNFreq, BandFor(freqMin, freqMax, specNFreq).0 + fi) <==> specNFreq >= 13
    ensures specNFreq > 15 ==> BandFor(freqMin, freqMax, specNFreq).0 + fi + 2 * (NTONES - 2) <= specNFreq - 3
  {
    assert 7.0 * (6.25 / DF) == 14.0;
    assert Ceil(14.0) == 14;
    TonesFit(specNFreq, BandFor(freqMin, freqMax, specNFreq).0 + fi);
  }

  /** `n_freq_for` never yields so narrow a spectrogram. */
  lemma WideEnough(maxFreq: real)
    requires 0.0 <= maxFreq
    ensures 17 <= NFreqFor(maxFreq) <= 1920
  {
    assert (maxFreq + 8.0 * 6.25) / DF >= 16.0;
  }

  /** The bands the receiver ships: two adjacent halves of 465 carriers that
      share bin 496, in a 977-bin spectrogram. */
  lemma ShippedBands()
    ensures NFreqFor(3000.0) == 977
    ensures BandFor(100.0, 1550.0, 977) == (32, 465)
    ensures BandFor(1550.0, 3000.0, 977) == (496, 465)
  {
    assert 7.0 * (6.25 / DF) == 14.0 && Ceil(14.0) == 14;
    assert 100.0 / DF == 32.0 && 1550.0 / DF == 496.0 && 3000.0 / DF == 960.0;
    assert (3000.0 + 8.0 * 6.25) / DF == 976.0 && Ceil(976.0) == 976;
    assert Round(32.0) == 32 && Round(496.0) == 496 && Round(960.0) == 960;
  }
}

/** The incremental spectrogram task
    (embedded-poc/embedded-shared/src/stage1_inc.rs and pipeline.rs): audio chunks
    arrive on one queue, a SpecBundle leaves as soon as enough of the spectrogram
    is filled, a Slot leaves at each SlotEnd, and both carry a pointer into one of
    two audio buffers that take turns.

    The functions are the meaning of the task: one state, one message, the next
    state. Stage1Worker.dfy is the task itself, in place, and Stage1Runs.dfy says
    what holds on every run. */
module Stage1 {

  import opened Common
  import opened PairKernel
  import Allsum

  const NSTEP: nat := 960
  const N_TIME: nat := 184
  const N_PAIRS: nat := 92
  const TARGET_PEAK: nat := 7680
  const LOCK_AT: nat := 12_000

  /** The carriers of one half of the band: the first bin, and how many. */
  datatype Band = Band(ia: nat, n: nat)

  /** What `spawn_with_wf` fixes: whether a waterfall consumer is wired, the emit
      point (a build-time constant, 87 by default), the transform and its sizes, the two
      halves the tone sums are kept for, and how two rows look in the waterfall. */
  datatype Config = Config(wf: bool, emitPair: nat, n: nat, nFreq: nat, fft: seq<Cx> -> seq<Cx>,
                           head: Band, tail: Band, palette: (seq<U16>, seq<U16>) -> seq<nat>)

  ghost predicate Sane(c: Config) {
    && 82 <= c.emitPair <= N_PAIRS
    && 0 < c.nFreq && 2 * c.nFreq <= c.n
    && forall y :: |y| == c.n ==> |c.fft(y)| == c.n
  }

  datatype Msg =
    | Samples(data: seq<I16>)
    | SlotEnd(wavIdx: nat, total: nat)
    | SlotResetMark

  /** `epoch` is not in the source: it numbers the slots begun, so that a bundle
      and a slot can be said to belong together. `buf` stands for the pointer. */
  datatype Bundle = Bundle(epoch: nat, buf: nat, audioLen: nat, validRows: nat, spec: seq<U16>, sums: Sums)

  datatype Slot = Slot(epoch: nat, buf: nat, audioLen: nat, wavIdx: nat)

  /** A waterfall row offered to the consumer, who drops it if its queue is full. */
  datatype Tick = Tick(epoch: nat, pairIdx: nat, row: seq<nat>)

  /** The two tables of tone sums, a column per spectrogram row. */
  datatype Sums = Sums(head: seq<Allsum.F32Int>, tail: seq<Allsum.F32Int>)

  /** `SlotInProgress`. */
  datatype Cur = Cur(fill: nat, spec: seq<U16>, sums: Sums, sent: bool, nextPair: nat, shift: nat, locked: bool, peak: nat)

  datatype State = State(bufs: seq<seq<I16>>, fillIdx: nat, cur: Cur,
                         bundles: seq<Bundle>, slots: seq<Slot>, ticks: seq<Tick>, epoch: nat)

  // ---- The operations, as functions -------------------------------------------------

  function Zeros(n: nat): seq<U16> {
    seq(n, _ => 0)
  }

  /** Where row `m` starts in the flat spectrogram: `m * width`, by addition. */
  function Off(m: nat, width: nat): nat {
    if m == 0 then 0 else Off(m - 1, width) + width
  }

  lemma {:induction false} OffIsProduct(m: nat, width: nat)
    ensures Off(m, width) == m * width
  {
    if m > 0 {
      OffIsProduct(m - 1, width);
      assert m * width == (m - 1) * width + width;
    }
  }

  lemma {:induction false} RowFits(m: nat, rows: nat, width: nat)
    requires m < rows
    ensures Off(m, width) + width <= Off(rows, width)
  {
    if m < rows - 1 {
      RowFits(m, rows - 1, width);
    }
  }

  function SpecLen(c: Config): nat {
    Off(N_TIME, c.nFreq)
  }

  /** An empty table for `n` carriers. */
  function NoSums(n: nat): (r: seq<Allsum.F32Int>)
    ensures |r| == n
  {
    seq(n, _ => 0)
  }

  function ZeroSums(c: Config): Sums {
    Sums(NoSums(c.head.n * N_TIME), NoSums(c.tail.n * N_TIME))
  }

  /** Column `m` of a table, set to the tone sums of `row`. */
  function WithColumn(table: seq<Allsum.F32Int>, row: seq<U16>, ia: nat, m: nat): (r: seq<Allsum.F32Int>)
    requires |row| > 0
    ensures |r| == |table|
  {
    seq(|table|, i requires 0 <= i < |table| =>
      if i % N_TIME == m then Allsum.CarrierSum(row, ia + i / N_TIME) else table[i])
  }

  /** `update_allsum_columns_for_m`. */
  function WithColumns(c: Config, sums: Sums, row: seq<U16>, m: nat): Sums
    requires |row| > 0
  {
    Sums(WithColumn(sums.head, row, c.head.ia, m), WithColumn(sums.tail, row, c.tail.ia, m))
  }

  function FreshCur(c: Config): Cur {
    Cur(0, Zeros(SpecLen(c)), ZeroSums(c), false, 0, 0, false, 1)
  }

  function Init(c: Config, b0: seq<I16>, b1: seq<I16>): State {
    State([b0, b1], 0, FreshCur(c), [], [], [], 0)
  }

  /** Pairs this build computes per slot. */
  function Limit(c: Config): nat {
    if c.wf then N_PAIRS else c.emitPair
  }

  /** Samples that pair `j` needs in the buffer. */
  function Need(j: nat): nat {
    (2 * j + 1) * NSTEP + NSPS
  }

  predicate SumsFit(c: Config, sums: Sums) {
    |sums.head| == c.head.n * N_TIME && |sums.tail| == c.tail.n * N_TIME
  }

  /** What every operation keeps, and what makes each of them well defined: in
      particular the spectrogram buffer is never the emptied one while a pair is
      still to be computed. */
  ghost predicate Ok(c: Config, s: State) {
    && Sane(c)
    && |s.bufs| == 2 && |s.bufs[0]| == |s.bufs[1]| == NMAX && s.fillIdx < 2
    && s.cur.fill <= NMAX && s.cur.shift <= 8 && 1 <= s.cur.peak <= 0x8000
    && s.cur.nextPair <= Limit(c)
    && (|s.cur.spec| == SpecLen(c) || s.cur.spec == [])
    && (|s.cur.spec| == SpecLen(c) ==> SumsFit(c, s.cur.sums))
    && (s.cur.nextPair < Limit(c) ==> |s.cur.spec| == SpecLen(c))
    && (!s.cur.sent ==> |s.cur.spec| == SpecLen(c))
  }

  function Abs(x: int): nat {
    if x < 0 then -x else x
  }

  /** The running peak after `data`. */
  function PeakOver(p: nat, data: seq<I16>): nat {
    if data == [] then p
    else
      var before := PeakOver(p, data[..|data| - 1]);
      var a := Abs(data[|data| - 1]);
      if a > before then a else before
  }

  lemma {:induction false} PeakBound(p: nat, data: seq<I16>)
    requires 1 <= p <= 0x8000
    ensures 1 <= PeakOver(p, data) <= 0x8000
  {
    if data != [] {
      PeakBound(p, data[..|data| - 1]);
    }
  }

  /** The auto-gain search, from `shift` upward. */
  function ShiftFrom(peak: nat, shift: nat): (r: nat)
    requires shift <= 8
    ensures r <= 8
    decreases 8 - shift
  {
    if peak * Pow2(shift) < TARGET_PEAK && shift < 8 then ShiftFrom(peak, shift + 1) else shift
  }

  /** The two spectrogram rows of pair `j`. */
  function Rows(c: Config, audio: seq<I16>, j: nat, shift: nat): (rows: (seq<U16>, seq<U16>))
    requires Sane(c)
    ensures |rows.0| == |rows.1| == c.nFreq
  {
    PairRows(c.fft, audio, 2 * j * NSTEP, (2 * j + 1) * NSTEP, shift, c.n, c.nFreq)
  }

  /** `spec` with `rows` written at row offsets `rowA` and `rowB`. */
  function WithRows(spec: seq<U16>, rowA: nat, rowB: nat, rows: (seq<U16>, seq<U16>)): (r: seq<U16>)
    ensures |r| == |spec|
    ensures forall i :: 0 <= i < |r| ==>
      r[i] == if rowA <= i < rowA + |rows.0| then rows.0[i - rowA]
              else if rowB <= i < rowB + |rows.1| then rows.1[i - rowB]
              else spec[i]
  {
    seq(|spec|, i requires 0 <= i < |spec| =>
      if rowA <= i < rowA + |rows.0| then rows.0[i - rowA]
      else if rowB <= i < rowB + |rows.1| then rows.1[i - rowB]
      else spec[i])
  }

  /** `compute_pair_into`, for the next pair. */
  function ComputePair(c: Config, s: State): (t: State)
    requires Ok(c, s) && s.cur.nextPair < Limit(c)
    ensures Ok(c, t)
  {
    var j := s.cur.nextPair;
    var rows := Rows(c, s.bufs[s.fillIdx], j, s.cur.shift);
    s.(cur := s.cur.(
         spec := WithRows(s.cur.spec, Off(2 * j, c.nFreq), Off(2 * j + 1, c.nFreq), rows),
         sums := WithColumns(c, WithColumns(c, s.cur.sums, rows.0, 2 * j), rows.1, 2 * j + 1),
         nextPair := j + 1),
       ticks := if c.wf then s.ticks + [Tick(s.epoch, 2 * j + 1, c.palette(rows.0, rows.1))] else s.ticks)
  }

  predicate PairReady(c: Config, s: State) {
    s.cur.nextPair < Limit(c) && Need(s.cur.nextPair) <= s.cur.fill
  }

  function PairLoop(c: Config, s: State): (t: State)
    requires Ok(c, s)
    ensures Ok(c, t)
    decreases Limit(c) - s.cur.nextPair
  {
    if PairReady(c, s) then PairLoop(c, ComputePair(c, s)) else s
  }

  /** `emit_spec_bundle`: the spectrogram and the tone sums are moved out, and replaced
      by fresh ones only if further pairs of this slot will be computed. */
  function Emit(c: Config, s: State): State {
    var more := c.wf && s.cur.nextPair < N_PAIRS;
    s.(bundles := s.bundles + [Bundle(s.epoch, s.fillIdx, s.cur.fill, Min(2 * s.cur.nextPair, N_TIME),
                                      s.cur.spec, s.cur.sums)],
       cur := s.cur.(spec := if more then Zeros(SpecLen(c)) else [],
                     sums := if more then ZeroSums(c) else Sums([], []),
                     sent := true))
  }

  function Lock(c: Config, s: State): (t: State)
    requires Ok(c, s)
    ensures Ok(c, t)
  {
    if !s.cur.locked && s.cur.fill >= LOCK_AT
    then s.(cur := s.cur.(shift := ShiftFrom(s.cur.peak, 0), locked := true))
    else s
  }

  /** `advance_pairs`. */
  function Advance(c: Config, s: State): (t: State)
    requires Ok(c, s)
    ensures Ok(c, t)
  {
    var s1 := Lock(c, s);
    if !s1.cur.locked then s1
    else
      var s2 := PairLoop(c, s1);
      if s2.cur.nextPair >= c.emitPair && !s2.cur.sent then Emit(c, s2) else s2
  }

  /** `data` copied into `buf` from `off`. */
  function Copied(buf: seq<I16>, off: nat, data: seq<I16>): (r: seq<I16>)
    requires off + |data| <= |buf|
    ensures |r| == |buf|
  {
    buf[..off] + data + buf[off + |data|..]
  }

  /** A chunk appended to the buffer, and the peak updated. */
  function Appended(s: State, data: seq<I16>): State
    requires |s.bufs| == 2 && s.fillIdx < 2 && s.cur.fill + |data| <= |s.bufs[s.fillIdx]|
  {
    s.(bufs := s.bufs[s.fillIdx := Copied(s.bufs[s.fillIdx], s.cur.fill, data)],
       cur := s.cur.(peak := PeakOver(s.cur.peak, data), fill := s.cur.fill + |data|))
  }

  lemma AppendedOk(c: Config, s: State, data: seq<I16>)
    requires Ok(c, s) && s.cur.fill + |data| <= NMAX
    ensures Ok(c, Appended(s, data))
  {
    PeakBound(s.cur.peak, data);
  }

  /** `ingest_samples`: a chunk that would overrun the slot is dropped whole. */
  function Ingest(c: Config, s: State, data: seq<I16>): (t: State)
    requires Ok(c, s)
    ensures Ok(c, t)
  {
    if s.cur.fill + |data| > NMAX then s
    else
      AppendedOk(c, s, data);
      Advance(c, Appended(s, data))
  }

  /** `finalize_slot`, up to the swap: whatever pairs the audio still supports, and
      a partial bundle if none has left yet. Without a waterfall that late emit
      leaves an emptied buffer behind although pairs are missing; the slot in
      progress is replaced in the same call. */
  function Flush(c: Config, s: State): State
    requires Ok(c, s)
  {
    var s1 := Advance(c, s);
    if s1.cur.sent then s1 else Emit(c, s1)
  }

  function Finalize(c: Config, s: State, wavIdx: nat): (t: State)
    requires Ok(c, s)
    ensures Ok(c, t)
  {
    var s2 := Flush(c, s);
    State(s2.bufs, 1 - s2.fillIdx, FreshCur(c), s2.bundles,
          s2.slots + [Slot(s2.epoch, s2.fillIdx, s2.cur.fill, wavIdx)], s2.ticks, s2.epoch + 1)
  }

  function Reset(c: Config, s: State): (t: State)
    requires Ok(c, s)
    ensures Ok(c, t)
  {
    s.(cur := FreshCur(c), epoch := s.epoch + 1)
  }

  /** One turn of `worker_main`. */
  function Step(c: Config, s: State, msg: Msg): (t: State)
    requires Ok(c, s)
    ensures Ok(c, t)
  {
    match msg
    case Samples(data) => Ingest(c, s, data)
    case SlotEnd(wavIdx, _) => Finalize(c, s, wavIdx)
    case SlotResetMark => Reset(c, s)
  }
}

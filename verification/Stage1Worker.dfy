/** The incremental spectrogram task itself
    (embedded-poc/embedded-shared/src/stage1_inc.rs, `WorkerCtx` and the functions
    that take it), in place: the fields change, the buffers are written, the sent
    messages queue up. Every method is a function of Stage1 on the state it finds, so
    what Stage1Runs, Stage1Sums, Stage1Pairing and Stage1Gain prove of runs holds of
    the task. */
module Stage1Worker {

  import opened Common
  import opened PairKernel
  import opened Stage1
  import Allsum

  ghost predicate Apart(a: object, b: object) {
    a != b
  }

  class WorkerCtx {
    const c: Config
    const buf0: array<I16>
    const buf1: array<I16>
    const fftBuf: array<Cx>
    var fillIdx: nat
    // SlotInProgress
    var audioFill: nat
    var spec: array<U16>
    var head: array<Allsum.F32Int>
    var tail: array<Allsum.F32Int>
    var specSent: bool
    var nextPair: nat
    var shift: nat
    var shiftLocked: bool
    var peakAbs: nat
    // Messages sent so far; a bundle owns the tables moved into it.
    var specQ: seq<Bundle>
    var slotQ: seq<Slot>
    var wfQ: seq<Tick>
    var epoch: nat

    /** The state the model talks about. */
    ghost function Abs(): State
      reads this, buf0, buf1, spec, head, tail
    {
      State([buf0[..], buf1[..]], fillIdx,
            Cur(audioFill, spec[..], Sums(head[..], tail[..]), specSent, nextPair, shift, shiftLocked, peakAbs),
            specQ, slotQ, wfQ, epoch)
    }

    ghost predicate Separate()
      reads this
    {
      && Apart(buf0, buf1) && Apart(buf0, fftBuf) && Apart(buf1, fftBuf)
      && Apart(spec, buf0) && Apart(spec, buf1) && Apart(spec, fftBuf)
      && Apart(head, buf0) && Apart(head, buf1) && Apart(head, fftBuf) && Apart(head, spec)
      && Apart(tail, buf0) && Apart(tail, buf1) && Apart(tail, fftBuf) && Apart(tail, spec) && Apart(tail, head)
    }

    ghost predicate Valid()
      reads this, buf0, buf1, spec, head, tail
    {
      && Ok(c, Abs())
      && fftBuf.Length == c.n
      && Separate()
    }

    constructor (c: Config, audio0: array<I16>, audio1: array<I16>)
      requires Sane(c) && audio0.Length == audio1.Length == NMAX && audio0 != audio1
      ensures Valid() && this.c == c && buf0 == audio0 && buf1 == audio1
      ensures fresh(fftBuf) && fresh(spec) && fresh(head) && fresh(tail)
      ensures Abs() == Init(c, audio0[..], audio1[..])
    {
      this.c := c;
      buf0, buf1 := audio0, audio1;
      fftBuf := new Cx[c.n](_ => Cx(0, 0));
      fillIdx := 0;
      audioFill, specSent, nextPair, shift, shiftLocked, peakAbs := 0, false, 0, 0, false, 1;
      spec := new U16[SpecLen(c)](_ => 0);
      head, tail := new Allsum.F32Int[c.head.n * N_TIME](_ => 0), new Allsum.F32Int[c.tail.n * N_TIME](_ => 0);
      specQ, slotQ, wfQ, epoch := [], [], [], 0;
      new;
      assert spec[..] == Zeros(SpecLen(c));
      assert head[..] == NoSums(c.head.n * N_TIME) && tail[..] == NoSums(c.tail.n * N_TIME);
    }

    /** The buffer being written. */
    function FillBuf(): array<I16>
      reads this
    {
      if fillIdx == 0 then buf0 else buf1
    }

    method ComputePairInto()
      requires Valid() && nextPair < Limit(c)
      modifies this`nextPair, this`wfQ, fftBuf, spec, head, tail
      ensures Valid() && Abs() == ComputePair(c, old(Abs()))
    {
      ghost var was := Abs();
      TablesAreThere(c, was);
      var rows := FillPair(c, fftBuf, FillBuf(), nextPair, shift, spec, head, tail);
      if c.wf {
        wfQ := wfQ + [Tick(epoch, 2 * nextPair + 1, c.palette(rows.0, rows.1))];
      }
      nextPair := nextPair + 1;
      assert Abs() == ComputePair(c, was);
    }

    /** The gain is locked as soon as enough samples are in. */
    method LockGain()
      requires Valid()
      modifies this`shift, this`shiftLocked
      ensures Valid() && Abs() == Lock(c, old(Abs()))
    {
      if !shiftLocked && audioFill >= 12_000 {
        shift := AutoShift(peakAbs);
        shiftLocked := true;
      }
    }

    /** Every pair whose samples are in, up to the limit. */
    method ComputePairs()
      requires Valid()
      modifies this`nextPair, this`wfQ, fftBuf, spec, head, tail
      ensures Valid() && Abs() == PairLoop(c, old(Abs()))
    {
      var pairLimit := if c.wf then N_PAIRS else c.emitPair;
      while nextPair < pairLimit && (2 * nextPair + 1) * NSTEP + NSPS <= audioFill
        invariant Valid() && PairLoop(c, Abs()) == PairLoop(c, old(Abs()))
        invariant audioFill == old(audioFill)
        decreases pairLimit - nextPair
      {
        ComputePairInto();
      }
    }

    method AdvancePairs()
      requires Valid()
      modifies this`shift, this`shiftLocked, this`nextPair, this`spec, this`head, this`tail, this`specSent
      modifies this`specQ, this`wfQ, fftBuf, spec, head, tail
      ensures Valid() && SameOrFresh(old(spec), old(head), old(tail)) && Abs() == Advance(c, old(Abs()))
    {
      ghost var s0 := Abs();
      LockGain();
      if !shiftLocked { return; }
      ComputePairs();
      if nextPair >= c.emitPair && !specSent {
        EmitSpecBundle();
        AdvanceIsOk(c, s0);
      }
    }

    /** The tables are the ones a method found, or new ones. */
    twostate predicate SameOrFresh(spec0: array<U16>, head0: array<Allsum.F32Int>, tail0: array<Allsum.F32Int>)
      reads this
    {
      (spec == spec0 && head == head0 && tail == tail0) || (fresh(spec) && fresh(head) && fresh(tail))
    }

    /** The spectrogram and the tone sums are moved into the bundle: whatever is computed
        later goes to other buffers. */
    method EmitSpecBundle()
      requires Valid()
      modifies this`spec, this`head, this`tail, this`specSent, this`specQ
      ensures fresh(spec) && fresh(head) && fresh(tail) && Abs() == Emit(c, old(Abs()))
      ensures Separate()
    {
      var needsBuffers := c.wf && nextPair < N_PAIRS;
      var validRows := if 2 * nextPair < N_TIME then 2 * nextPair else N_TIME;
      specQ := specQ + [Bundle(epoch, fillIdx, audioFill, validRows, spec[..], Sums(head[..], tail[..]))];
      NewTables(needsBuffers);
      specSent := true;
    }

    /** Zeroed tables, or empty ones. */
    method NewTables(wanted: bool)
      requires Separate()
      modifies this`spec, this`head, this`tail
      ensures fresh(spec) && fresh(head) && fresh(tail) && Separate()
      ensures spec[..] == if wanted then Zeros(SpecLen(c)) else []
      ensures Sums(head[..], tail[..]) == if wanted then ZeroSums(c) else Sums([], [])
    {
      spec := NewSpec(if wanted then SpecLen(c) else 0);
      head := NewTable(if wanted then c.head.n * N_TIME else 0);
      tail := NewTable(if wanted then c.tail.n * N_TIME else 0);
      assert Zeros(0) == [] && NoSums(0) == [];
    }

    /** The peak search of `ingest_samples`. */
    method ScanPeak(data: seq<I16>)
      modifies this`peakAbs
      ensures peakAbs == PeakOver(old(peakAbs), data)
    {
      for k := 0 to |data|
        invariant peakAbs == PeakOver(old(peakAbs), data[..k])
      {
        assert data[..k + 1][..k] == data[..k];
        var a := Stage1.Abs(data[k]);
        if a > peakAbs {
          peakAbs := a;
        }
      }
      assert data[..|data|] == data;
    }

    method AppendChunk(data: seq<I16>)
      requires Valid() && audioFill + |data| <= NMAX
      modifies this`peakAbs, this`audioFill, buf0, buf1
      ensures Valid() && Abs() == Appended(old(Abs()), data)
    {
      AppendedOk(c, Abs(), data);
      if fillIdx == 0 {
        CopyInto(buf0, audioFill, data);
      } else {
        CopyInto(buf1, audioFill, data);
      }
      ScanPeak(data);
      audioFill := audioFill + |data|;
    }

    method IngestSamples(data: seq<I16>)
      requires Valid()
      modifies this, buf0, buf1, fftBuf, spec, head, tail
      ensures Valid() && SameOrFresh(old(spec), old(head), old(tail)) && Abs() == Ingest(c, old(Abs()), data)
    {
      if audioFill + |data| > NMAX { return; }
      AppendChunk(data);
      AdvancePairs();
    }

    method FinalizeSlot(wavIdx: nat)
      requires Valid()
      modifies this, fftBuf, spec, head, tail
      ensures Valid() && fresh(spec) && fresh(head) && fresh(tail) && Abs() == Finalize(c, old(Abs()), wavIdx)
    {
      FlushPairs();
      var slot := Slot(epoch, fillIdx, audioFill, wavIdx);
      fillIdx := 1 - fillIdx;
      ResetInProgress();
      slotQ := slotQ + [slot];
    }

    /** The pairs still due, and a partial bundle if none has left. */
    method FlushPairs()
      requires Valid()
      modifies this`shift, this`shiftLocked, this`nextPair, this`spec, this`head, this`tail, this`specSent
      modifies this`specQ, this`wfQ, fftBuf, spec, head, tail
      ensures Separate() && Abs() == Flush(c, old(Abs()))
    {
      AdvancePairs();
      if !specSent {
        EmitSpecBundle();
      }
    }

    /** `SlotInProgress::new`. */
    method NewSlot()
      requires Separate()
      modifies this`audioFill, this`spec, this`head, this`tail, this`specSent, this`nextPair
      modifies this`shift, this`shiftLocked, this`peakAbs
      ensures fresh(spec) && fresh(head) && fresh(tail) && Separate()
      ensures Abs() == old(Abs()).(cur := FreshCur(c))
    {
      NewTables(true);
      audioFill, specSent, nextPair, shift, shiftLocked, peakAbs := 0, false, 0, 0, false, 1;
    }

    /** A fresh slot in progress; nothing sent is taken back. */
    method ResetInProgress()
      requires Sane(c) && buf0.Length == buf1.Length == NMAX && fillIdx < 2 && fftBuf.Length == c.n && Separate()
      modifies this
      ensures Valid() && fresh(spec) && fresh(head) && fresh(tail)
      ensures Abs() == old(Abs()).(cur := FreshCur(c), epoch := old(epoch) + 1)
    {
      NewSlot();
      epoch := epoch + 1;
      FreshIsOk(c, Abs());
    }

    /** One turn of `worker_main`. */
    method Receive(msg: Msg)
      requires Valid()
      modifies this, buf0, buf1, fftBuf, spec, head, tail
      ensures Valid() && SameOrFresh(old(spec), old(head), old(tail)) && Abs() == Step(c, old(Abs()), msg)
    {
      match msg
      case Samples(data) => IngestSamples(data);
      case SlotEnd(wavIdx, _) => FinalizeSlot(wavIdx);
      case SlotResetMark => ResetInProgress();
    }
  }

  lemma TablesAreThere(c: Config, s: State)
    requires Ok(c, s) && s.cur.nextPair < Limit(c)
    ensures |s.cur.spec| == SpecLen(c) && SumsFit(c, s.cur.sums) && s.cur.nextPair < N_PAIRS && s.cur.shift <= 8
  {
  }

  lemma FreshIsOk(c: Config, s: State)
    requires Sane(c) && |s.bufs| == 2 && |s.bufs[0]| == |s.bufs[1]| == NMAX && s.fillIdx < 2 && s.cur == FreshCur(c)
    ensures Ok(c, s)
  {
  }

  lemma AdvanceIsOk(c: Config, s: State)
    requires Ok(c, s)
    ensures Ok(c, Advance(c, s))
  {
  }

  /** A zeroed spectrogram buffer, empty for length 0. */
  method NewSpec(n: nat) returns (spec: array<U16>)
    ensures fresh(spec) && spec[..] == Zeros(n)
  {
    spec := new U16[n](_ => 0);
    assert spec[..] == Zeros(n);
  }

  method NewTable(n: nat) returns (table: array<Allsum.F32Int>)
    ensures fresh(table) && table[..] == NoSums(n)
  {
    table := new Allsum.F32Int[n](_ => 0);
    assert table[..] == NoSums(n);
  }

  /** One chunk copied into the audio buffer. */
  method CopyInto(dst: array<I16>, off: nat, data: seq<I16>)
    requires off + |data| <= dst.Length
    modifies dst
    ensures dst[..] == Copied(old(dst[..]), off, data)
  {
    forall i | 0 <= i < |data| {
      dst[off + i] := data[i];
    }
  }

  /** The auto-gain search. */
  method AutoShift(peak: nat) returns (shift: nat)
    requires peak <= 0x8000
    ensures shift == ShiftFrom(peak, 0)
  {
    shift := 0;
    while peak * Pow2(shift) < TARGET_PEAK && shift < 8
      invariant shift <= 8 && ShiftFrom(peak, shift) == ShiftFrom(peak, 0)
      decreases 8 - shift
    {
      shift := shift + 1;
    }
  }

  /** The kernel call of `compute_pair_into`, at pair `j`. */
  method WritePair(c: Config, fftBuf: array<Cx>, audio: array<I16>, j: nat, shift: nat, spec: array<U16>)
    requires Sane(c) && fftBuf.Length == c.n && audio.Length == NMAX && shift <= 8
    requires j < N_PAIRS && spec.Length == SpecLen(c) && Apart(audio, spec) && Apart(fftBuf, spec) && Apart(fftBuf, audio)
    modifies fftBuf, spec
    ensures spec[..] == WithRows(old(spec[..]), Off(2 * j, c.nFreq), Off(2 * j + 1, c.nFreq), Rows(c, audio[..], j, shift))
    ensures Off(2 * j, c.nFreq) + c.nFreq <= Off(2 * j + 1, c.nFreq) && Off(2 * j + 1, c.nFreq) + c.nFreq <= SpecLen(c)
    ensures spec[Off(2 * j, c.nFreq)..Off(2 * j, c.nFreq) + c.nFreq] == Rows(c, audio[..], j, shift).0
    ensures spec[Off(2 * j + 1, c.nFreq)..Off(2 * j + 1, c.nFreq) + c.nFreq] == Rows(c, audio[..], j, shift).1
  {
    var jA, jB := 2 * j, 2 * j + 1;
    OffIsProduct(jA, c.nFreq);
    OffIsProduct(jB, c.nFreq);
    RowFits(jA, jB, c.nFreq);
    RowFits(jB, N_TIME, c.nFreq);
    ghost var was := spec[..];
    PairKernelI16(c.fft, fftBuf, audio, jA * NSTEP, jB * NSTEP, shift, c.nFreq, spec, jA * c.nFreq, jB * c.nFreq);
    RowsWritten(spec[..], was, Off(jA, c.nFreq), Off(jB, c.nFreq), Rows(c, audio[..], j, shift), c.nFreq);
  }

  /** What a column update promises is what setting a column means. */
  lemma ColumnIs(now: seq<Allsum.F32Int>, was: seq<Allsum.F32Int>, row: seq<U16>, ia: nat, m: nat, n: nat)
    requires |row| > 0 && |now| == n * N_TIME && m < N_TIME
    requires Allsum.ColumnDone(now, row, ia, m, n) && Allsum.OnlyColumn(now, was, m)
    ensures now == WithColumn(was, row, ia, m)
  {
    forall i | 0 <= i < |now| ensures now[i] == WithColumn(was, row, ia, m)[i] {
      if i % N_TIME == m {
        assert Allsum.Cell(i / N_TIME, m) == i && i / N_TIME < n;
      }
    }
  }

  /** `update_allsum_columns_for_m`: both halves' columns of one row. */
  method UpdateColumns(c: Config, m: nat, row: seq<U16>, head: array<Allsum.F32Int>, tail: array<Allsum.F32Int>)
    requires m < N_TIME && |row| > 0 && head.Length == c.head.n * N_TIME && tail.Length == c.tail.n * N_TIME
    requires head != tail
    modifies head, tail
    ensures Sums(head[..], tail[..]) == WithColumns(c, Sums(old(head[..]), old(tail[..])), row, m)
  {
    Allsum.UpdateOneHalf(m, c.head.ia, c.head.n, row, head);
    ColumnIs(head[..], old(head[..]), row, c.head.ia, m, c.head.n);
    Allsum.UpdateOneHalf(m, c.tail.ia, c.tail.n, row, tail);
    ColumnIs(tail[..], old(tail[..]), row, c.tail.ia, m, c.tail.n);
  }

  /** The whole of `compute_pair_into` but the waterfall: the two rows, then their
      columns in both tables. */
  method FillPair(c: Config, fftBuf: array<Cx>, audio: array<I16>, j: nat, shift: nat, spec: array<U16>,
                  head: array<Allsum.F32Int>, tail: array<Allsum.F32Int>)
    returns (rows: (seq<U16>, seq<U16>))
    requires Sane(c) && fftBuf.Length == c.n && audio.Length == NMAX && shift <= 8
    requires j < N_PAIRS && spec.Length == SpecLen(c) && Apart(audio, spec) && Apart(fftBuf, spec) && Apart(fftBuf, audio)
    requires head.Length == c.head.n * N_TIME && tail.Length == c.tail.n * N_TIME
    requires Apart(head, tail) && Apart(head, spec) && Apart(tail, spec) && Apart(head, fftBuf) && Apart(tail, fftBuf)
    requires Apart(head, audio) && Apart(tail, audio)
    modifies fftBuf, spec, head, tail
    ensures rows == Rows(c, audio[..], j, shift)
    ensures spec[..] == WithRows(old(spec[..]), Off(2 * j, c.nFreq), Off(2 * j + 1, c.nFreq), rows)
    ensures Sums(head[..], tail[..])
         == WithColumns(c, WithColumns(c, Sums(old(head[..]), old(tail[..])), rows.0, 2 * j), rows.1, 2 * j + 1)
  {
    WritePair(c, fftBuf, audio, j, shift, spec);
    var rowA, rowB := Off(2 * j, c.nFreq), Off(2 * j + 1, c.nFreq);
    rows := (spec[rowA..rowA + c.nFreq], spec[rowB..rowB + c.nFreq]);
    UpdateColumns(c, 2 * j, rows.0, head, tail);
    UpdateColumns(c, 2 * j + 1, rows.1, head, tail);
  }

  /** What the pair kernel promises is what writing two rows means. */
  lemma RowsWritten(now: seq<U16>, was: seq<U16>, rowA: nat, rowB: nat, rows: (seq<U16>, seq<U16>), width: nat)
    requires |rows.0| == |rows.1| == width && rowA + width <= rowB && rowB + width <= |now|
    requires OnlyRows(now, was, rowA, rowB, width)
    requires now[rowA..rowA + width] == rows.0 && now[rowB..rowB + width] == rows.1
    ensures now == WithRows(was, rowA, rowB, rows)
  {
    forall i | 0 <= i < |now| ensures now[i] == WithRows(was, rowA, rowB, rows)[i] {
      if rowA <= i < rowA + width {
        assert now[i] == now[rowA..rowA + width][i - rowA];
      } else if rowB <= i < rowB + width {
        assert now[i] == now[rowB..rowB + width][i - rowB];
      }
    }
  }
}

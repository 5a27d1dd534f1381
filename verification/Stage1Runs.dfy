/** What holds on every run of the incremental spectrogram task: for any sequence
    of Samples, SlotEnd and SlotResetMark messages, any chunk sizes, both waterfall
    settings and any emit point. */
module Stage1Runs {

  import opened Common
  import opened PairKernel
  import opened Stage1

  ghost predicate Buffers(b0: seq<I16>, b1: seq<I16>) {
    |b0| == |b1| == NMAX
  }

  /** The state after the messages `ms`, from buffers that hold anything at all. */
  function Run(c: Config, b0: seq<I16>, b1: seq<I16>, ms: seq<Msg>): (s: State)
    requires Sane(c) && Buffers(b0, b1)
    ensures Ok(c, s)
  {
    if ms == [] then Init(c, b0, b1)
    else Step(c, Run(c, b0, b1, ms[..|ms| - 1]), ms[|ms| - 1])
  }

  /** The samples of the slot in progress: chunks since the last SlotEnd or reset,
      less those that would have overrun the slot. */
  function Accepted(ms: seq<Msg>): (a: seq<I16>)
    ensures |a| <= NMAX
  {
    if ms == [] then [] else AcceptedAfter(Accepted(ms[..|ms| - 1]), ms[|ms| - 1])
  }

  function AcceptedAfter(audio: seq<I16>, msg: Msg): seq<I16> {
    match msg
    case Samples(data) => if |audio| + |data| <= NMAX then audio + data else audio
    case _ => []
  }

  lemma RunSnoc(c: Config, b0: seq<I16>, b1: seq<I16>, ms: seq<Msg>, msg: Msg)
    requires Sane(c) && Buffers(b0, b1)
    ensures Run(c, b0, b1, ms + [msg]) == Step(c, Run(c, b0, b1, ms), msg)
    ensures Accepted(ms + [msg]) == AcceptedAfter(Accepted(ms), msg)
  {
    assert (ms + [msg])[..|ms + [msg]| - 1] == ms;
  }

  /** Pairs computed once `fill` samples are in: none before the gain is locked,
      then every pair whose second window is complete. */
  function PairsFor(c: Config, fill: nat): nat {
    if fill < LOCK_AT then 0 else Min(Limit(c), (fill - NSTEP) / (2 * NSTEP))
  }

  // ---- Rows of the spectrogram ------------------------------------------------------

  function RowAt(c: Config, spec: seq<U16>, m: nat): (r: seq<U16>)
    requires m < N_TIME && |spec| == SpecLen(c)
    ensures |r| == c.nFreq
  {
    RowFits(m, N_TIME, c.nFreq);
    spec[Off(m, c.nFreq)..Off(m, c.nFreq) + c.nFreq]
  }

  /** What row `m` holds once the pairs from `from` to `pairs` of this audio have been
      computed. */
  function WantedRow(c: Config, audio: seq<I16>, shift: nat, from: nat, pairs: nat, m: nat): (r: seq<U16>)
    requires Sane(c)
    ensures |r| == c.nFreq
  {
    if m < 2 * from || m >= 2 * pairs then Zeros(c.nFreq)
    else if m % 2 == 0 then Rows(c, audio, m / 2, shift).0
    else Rows(c, audio, m / 2, shift).1
  }

  /** The rows of the pairs from `from` to `pairs` are this audio's spectrum at this
      gain, the rest are zero. */
  ghost predicate RowsBetween(c: Config, audio: seq<I16>, shift: nat, spec: seq<U16>, from: nat, pairs: nat)
    requires Sane(c)
  {
    && |spec| == SpecLen(c)
    && forall m: nat {:trigger RowAt(c, spec, m)} ::
         m < N_TIME ==> RowAt(c, spec, m) == WantedRow(c, audio, shift, from, pairs, m)
  }

  /** The first `2 * pairs` rows are. */
  ghost predicate RowsFilled(c: Config, audio: seq<I16>, shift: nat, spec: seq<U16>, pairs: nat)
    requires Sane(c)
  {
    RowsBetween(c, audio, shift, spec, 0, pairs)
  }

  /** Different rows do not overlap. */
  lemma RowsApart(m: nat, r: nat, width: nat)
    requires m != r && width > 0
    ensures Off(m, width) + width <= Off(r, width) || Off(r, width) + width <= Off(m, width)
  {
    if m < r { RowFits(m, r, width); } else { RowFits(r, m, width); }
  }

  lemma WrittenAt(spec: seq<U16>, rowA: nat, rowB: nat, rows: (seq<U16>, seq<U16>), at: nat, width: nat,
                  isA: bool, isB: bool)
    requires |rows.0| == |rows.1| == width && at + width <= |spec| && rowA + width <= rowB
    requires if isA then at == rowA else at != rowA && (at + width <= rowA || rowA + width <= at)
    requires if isB then at == rowB else at != rowB && (at + width <= rowB || rowB + width <= at)
    ensures WithRows(spec, rowA, rowB, rows)[at..at + width]
            == if isA then rows.0 else if isB then rows.1 else spec[at..at + width]
  {
    var got := WithRows(spec, rowA, rowB, rows)[at..at + width];
    var want := if isA then rows.0 else if isB then rows.1 else spec[at..at + width];
    assert |got| == |want|;
    forall k | 0 <= k < width ensures got[k] == want[k] {
    }
  }

  lemma WrittenPair(c: Config, spec: seq<U16>, j: nat, rows: (seq<U16>, seq<U16>), m: nat)
    requires j < N_PAIRS && m < N_TIME && |spec| == SpecLen(c) && c.nFreq > 0
    requires |rows.0| == |rows.1| == c.nFreq
    ensures RowAt(c, WithRows(spec, Off(2 * j, c.nFreq), Off(2 * j + 1, c.nFreq), rows), m)
            == if m == 2 * j then rows.0 else if m == 2 * j + 1 then rows.1 else RowAt(c, spec, m)
  {
    RowFits(m, N_TIME, c.nFreq);
    RowFits(2 * j, 2 * j + 1, c.nFreq);
    if m != 2 * j { RowsApart(m, 2 * j, c.nFreq); }
    if m != 2 * j + 1 { RowsApart(m, 2 * j + 1, c.nFreq); }
    WrittenAt(spec, Off(2 * j, c.nFreq), Off(2 * j + 1, c.nFreq), rows, Off(m, c.nFreq), c.nFreq, m == 2 * j, m == 2 * j + 1);
  }

  /** The windows of pair `j` lie in the first `Need(j)` samples. */
  lemma RowsOfPrefix(c: Config, a: seq<I16>, b: seq<I16>, j: nat, shift: nat)
    requires Sane(c) && Need(j) <= |a| && Need(j) <= |b|
    requires a[..Need(j)] == b[..Need(j)]
    ensures Rows(c, a, j, shift) == Rows(c, b, j, shift)
  {
    var iaA, iaB := 2 * j * NSTEP, (2 * j + 1) * NSTEP;
    WindowOfPrefix(a, b, iaA, Need(j));
    WindowOfPrefix(a, b, iaB, Need(j));
    PackReadsWindows(a, b, iaA, iaB, shift, c.n);
  }

  lemma WindowOfPrefix(a: seq<I16>, b: seq<I16>, ia: nat, n: nat)
    requires n <= |a| && n <= |b| && a[..n] == b[..n] && ia + NSPS <= n
    ensures a[ia..ia + NSPS] == b[ia..ia + NSPS]
  {
    assert a[ia..ia + NSPS] == a[..n][ia..ia + NSPS];
    assert b[ia..ia + NSPS] == b[..n][ia..ia + NSPS];
  }

  /** More audio does not change the rows already computed. */
  lemma RowsBetweenExtend(c: Config, audio: seq<I16>, more: seq<I16>, shift: nat, spec: seq<U16>, from: nat, pairs: nat)
    requires Sane(c) && RowsBetween(c, audio, shift, spec, from, pairs)
    requires pairs == 0 || Need(pairs - 1) <= |audio|
    ensures RowsBetween(c, audio + more, shift, spec, from, pairs)
  {
    forall m: nat | m < N_TIME ensures RowAt(c, spec, m) == WantedRow(c, audio + more, shift, from, pairs, m) {
      if m < 2 * pairs {
        var n := Need(m / 2);
        assert n <= Need(pairs - 1);
        assert (audio + more)[..n] == audio[..n];
        RowsOfPrefix(c, audio, audio + more, m / 2, shift);
      }
    }
  }

  lemma ZeroRows(c: Config, audio: seq<I16>, shift: nat, pairs: nat)
    requires Sane(c)
    ensures RowsBetween(c, audio, shift, Zeros(SpecLen(c)), pairs, pairs)
  {
    forall m: nat | m < N_TIME ensures RowAt(c, Zeros(SpecLen(c)), m) == Zeros(c.nFreq) {
      RowFits(m, N_TIME, c.nFreq);
    }
  }

  // ---- The slot in progress ---------------------------------------------------------

  /** The bundle belongs to this epoch and buffer, and its spectrogram is that of
      the first `audioLen` samples of `audio`: `validRows` rows, zero after them. */
  ghost predicate Carries(c: Config, b: Bundle, epoch: nat, buf: nat, audio: seq<I16>, shift: nat)
    requires Sane(c)
  {
    && b.epoch == epoch && b.buf == buf && b.audioLen <= |audio|
    && b.validRows == 2 * PairsFor(c, b.audioLen)
    && RowsFilled(c, audio, shift, b.spec, PairsFor(c, b.audioLen))
  }

  /** What `advance_pairs` may start from: `audio` is in the buffer, some of its
      pairs are computed, and the bundle has left if it should have. */
  ghost predicate Filled(c: Config, audio: seq<I16>, s: State) {
    && Ok(c, s)
    && s.cur.fill == |audio| && s.bufs[s.fillIdx][..|audio|] == audio
    && s.cur.peak == PeakOver(1, audio)
    && (s.cur.locked ==> LOCK_AT <= |audio|)
    && (!s.cur.locked ==> s.cur.nextPair == 0)
    && (s.cur.nextPair > 0 ==> Need(s.cur.nextPair - 1) <= |audio|)
    && (!s.cur.sent ==> RowsFilled(c, audio, s.cur.shift, s.cur.spec, s.cur.nextPair))
    && (s.cur.sent ==>
          && s.cur.locked && s.cur.nextPair >= c.emitPair
          && |s.bundles| > 0
          && Carries(c, s.bundles[|s.bundles| - 1], s.epoch, s.fillIdx, audio, s.cur.shift)
          && PairsFor(c, s.bundles[|s.bundles| - 1].audioLen) >= c.emitPair
          && LaterRows(c, audio, s, PairsFor(c, s.bundles[|s.bundles| - 1].audioLen)))
  }

  /** Once the bundle has left with its `from` pairs: a fresh spectrogram with the
      pairs since, or none if no more will come. */
  ghost predicate LaterRows(c: Config, audio: seq<I16>, s: State, from: nat)
    requires Sane(c)
  {
    && from <= s.cur.nextPair
    && if c.wf && from < N_PAIRS then RowsBetween(c, audio, s.cur.shift, s.cur.spec, from, s.cur.nextPair)
       else s.cur.spec == []
  }

  /** What holds between messages. */
  ghost predicate Inv(c: Config, audio: seq<I16>, s: State) {
    && Filled(c, audio, s)
    && s.cur.locked == (LOCK_AT <= |audio|)
    && s.cur.nextPair == PairsFor(c, |audio|)
    && s.cur.sent == (s.cur.nextPair >= c.emitPair)
  }

  /** The parts of the state that computing pairs leaves alone. */
  ghost predicate SameBeyondSpec(s: State, t: State) {
    t == s.(cur := s.cur.(spec := t.cur.spec, sums := t.cur.sums, nextPair := t.cur.nextPair), ticks := t.ticks)
  }

  lemma NextWanted(c: Config, audio: seq<I16>, shift: nat, from: nat, j: nat, m: nat)
    requires Sane(c) && from <= j
    ensures WantedRow(c, audio, shift, from, j + 1, m)
            == if m == 2 * j then Rows(c, audio, j, shift).0
               else if m == 2 * j + 1 then Rows(c, audio, j, shift).1
               else WantedRow(c, audio, shift, from, j, m)
  {
    assert m == 2 * j ==> m / 2 == j && m % 2 == 0;
    assert m == 2 * j + 1 ==> m / 2 == j && m % 2 == 1;
  }

  lemma ComputedRows(c: Config, audio: seq<I16>, buf: seq<I16>, shift: nat, spec: seq<U16>, from: nat, j: nat)
    requires Sane(c) && from <= j < N_PAIRS && RowsBetween(c, audio, shift, spec, from, j)
    requires Need(j) <= |audio| <= |buf| && buf[..|audio|] == audio
    ensures RowsBetween(c, audio, shift,
                        WithRows(spec, Off(2 * j, c.nFreq), Off(2 * j + 1, c.nFreq), Rows(c, buf, j, shift)), from, j + 1)
  {
    var rows := Rows(c, buf, j, shift);
    assert audio[..Need(j)] == buf[..|audio|][..Need(j)] == buf[..Need(j)];
    RowsOfPrefix(c, audio, buf, j, shift);
    var written := WithRows(spec, Off(2 * j, c.nFreq), Off(2 * j + 1, c.nFreq), rows);
    forall m: nat | m < N_TIME
      ensures RowAt(c, written, m) == WantedRow(c, audio, shift, from, j + 1, m)
    {
      WrittenPair(c, spec, j, rows, m);
      NextWanted(c, audio, shift, from, j, m);
      assert RowAt(c, spec, m) == WantedRow(c, audio, shift, from, j, m);
    }
  }

  /** A pair is computed after the bundle has left only for the waterfall. */
  lemma SentMeansWaterfall(c: Config, audio: seq<I16>, s: State)
    requires Filled(c, audio, s) && s.cur.sent && PairReady(c, s)
    ensures
      var from := PairsFor(c, s.bundles[|s.bundles| - 1].audioLen);
      c.wf && from <= s.cur.nextPair && RowsBetween(c, audio, s.cur.shift, s.cur.spec, from, s.cur.nextPair)
  {
  }

  lemma ComputePairRows(c: Config, audio: seq<I16>, s: State, from: nat)
    requires Ok(c, s) && s.cur.nextPair < Limit(c) && from <= s.cur.nextPair
    requires Need(s.cur.nextPair) <= |audio| <= NMAX && s.bufs[s.fillIdx][..|audio|] == audio
    requires RowsBetween(c, audio, s.cur.shift, s.cur.spec, from, s.cur.nextPair)
    ensures RowsBetween(c, audio, s.cur.shift, ComputePair(c, s).cur.spec, from, s.cur.nextPair + 1)
  {
    ComputedRows(c, audio, s.bufs[s.fillIdx], s.cur.shift, s.cur.spec, from, s.cur.nextPair);
  }

  lemma ComputePairKeeps(c: Config, audio: seq<I16>, s: State)
    requires Filled(c, audio, s) && s.cur.locked && PairReady(c, s)
    ensures Filled(c, audio, ComputePair(c, s)) && SameBeyondSpec(s, ComputePair(c, s))
  {
    if s.cur.sent {
      SentMeansWaterfall(c, audio, s);
      ComputePairRows(c, audio, s, PairsFor(c, s.bundles[|s.bundles| - 1].audioLen));
    } else {
      ComputePairRows(c, audio, s, 0);
    }
  }

  /** The loop runs until the next pair is out of reach. */
  lemma {:induction false} PairLoopKeeps(c: Config, audio: seq<I16>, s: State)
    requires Filled(c, audio, s) && s.cur.locked
    ensures Filled(c, audio, PairLoop(c, s)) && SameBeyondSpec(s, PairLoop(c, s))
    ensures PairLoop(c, s).cur.nextPair == PairsFor(c, |audio|)
    decreases Limit(c) - s.cur.nextPair
  {
    if PairReady(c, s) {
      ComputePairKeeps(c, audio, s);
      PairLoopKeeps(c, audio, ComputePair(c, s));
    }
  }

  lemma EmitKeeps(c: Config, audio: seq<I16>, s: State)
    requires Filled(c, audio, s) && !s.cur.sent && s.cur.locked
    requires s.cur.nextPair == PairsFor(c, |audio|) && s.cur.nextPair >= c.emitPair
    ensures Filled(c, audio, Emit(c, s))
  {
    ZeroRows(c, audio, s.cur.shift, s.cur.nextPair);
  }

  lemma LockKeeps(c: Config, audio: seq<I16>, s: State)
    requires Filled(c, audio, s)
    ensures Filled(c, audio, Lock(c, s))
  {
    if Lock(c, s) != s && !s.cur.sent {
      forall m: nat | m < N_TIME
        ensures RowAt(c, s.cur.spec, m) == WantedRow(c, audio, Lock(c, s).cur.shift, 0, 0, m)
      {
        assert RowAt(c, s.cur.spec, m) == WantedRow(c, audio, s.cur.shift, 0, 0, m);
      }
    }
  }

  lemma AdvanceKeeps(c: Config, audio: seq<I16>, s: State)
    requires Filled(c, audio, s)
    ensures Inv(c, audio, Advance(c, s))
  {
    LockKeeps(c, audio, s);
    var s1 := Lock(c, s);
    if s1.cur.locked {
      PairLoopKeeps(c, audio, s1);
      var s2 := PairLoop(c, s1);
      if s2.cur.nextPair >= c.emitPair && !s2.cur.sent {
        EmitKeeps(c, audio, s2);
      }
    }
  }

  lemma {:induction false} PeakAppend(p: nat, a: seq<I16>, b: seq<I16>)
    ensures PeakOver(p, a + b) == PeakOver(PeakOver(p, a), b)
  {
    if b == [] {
      assert a + b == a;
    } else {
      assert (a + b)[..|a + b| - 1] == a + b[..|b| - 1];
      PeakAppend(p, a, b[..|b| - 1]);
    }
  }

  lemma AppendKeeps(c: Config, audio: seq<I16>, s: State, data: seq<I16>)
    requires Filled(c, audio, s) && |audio| + |data| <= NMAX
    ensures Filled(c, audio + data, Appended(s, data))
  {
    var t := Appended(s, data);
    PeakBound(s.cur.peak, data);
    PeakAppend(1, audio, data);
    assert t.bufs[s.fillIdx][..|audio| + |data|] == audio + data;
    if s.cur.sent {
      var b := s.bundles[|s.bundles| - 1];
      RowsBetweenExtend(c, audio, data, s.cur.shift, b.spec, 0, PairsFor(c, b.audioLen));
      if c.wf && PairsFor(c, b.audioLen) < N_PAIRS {
        RowsBetweenExtend(c, audio, data, s.cur.shift, s.cur.spec, PairsFor(c, b.audioLen), s.cur.nextPair);
      }
    } else {
      RowsBetweenExtend(c, audio, data, s.cur.shift, s.cur.spec, 0, s.cur.nextPair);
    }
  }

  lemma FreshKeeps(c: Config, s: State)
    requires Ok(c, s) && s.cur == FreshCur(c)
    ensures Inv(c, [], s)
  {
    ZeroRows(c, [], 0, 0);
    assert s.bufs[s.fillIdx][..0] == [];
  }

  lemma StepInv(c: Config, audio: seq<I16>, s: State, msg: Msg)
    requires Inv(c, audio, s)
    ensures Inv(c, AcceptedAfter(audio, msg), Step(c, s, msg))
  {
    match msg
    case Samples(data) =>
      if |audio| + |data| <= NMAX {
        AppendKeeps(c, audio, s, data);
        AdvanceKeeps(c, audio + data, Appended(s, data));
      }
    case SlotEnd(w, _) => FreshKeeps(c, Finalize(c, s, w));
    case SlotResetMark => FreshKeeps(c, Reset(c, s));
  }

  /** What the slot in progress holds is right after every message of every run. */
  lemma {:induction false} RunInv(c: Config, b0: seq<I16>, b1: seq<I16>, ms: seq<Msg>)
    requires Sane(c) && Buffers(b0, b1)
    ensures Inv(c, Accepted(ms), Run(c, b0, b1, ms))
  {
    if ms == [] {
      FreshKeeps(c, Init(c, b0, b1));
    } else {
      RunInv(c, b0, b1, ms[..|ms| - 1]);
      StepInv(c, Accepted(ms[..|ms| - 1]), Run(c, b0, b1, ms[..|ms| - 1]), ms[|ms| - 1]);
    }
  }

  // ---- Main results about one slot --------------------------------------------------

  /** A chunk that would take the slot past 180 000 samples is dropped whole. */
  lemma LongChunkDropped(ms: seq<Msg>, data: seq<I16>)
    ensures
      Accepted(ms + [Samples(data)])
      == if |Accepted(ms)| + |data| <= 180_000 then Accepted(ms) + data else Accepted(ms)
  {
    assert (ms + [Samples(data)])[..|ms|] == ms;
  }

  /** How far a slot is with `fill` samples in: 0 pairs below 12 000, from there on
      every pair whose second window is complete, up to the limit; and the bundle has left
      exactly when the emit point is passed. */
  predicate ProgressIs(c: Config, fill: nat, cur: Cur) {
    && cur.fill == fill
    && cur.nextPair == (if fill < 12_000 then 0 else Min(if c.wf then 92 else c.emitPair, (fill - 960) / 1920))
    && (cur.sent <==> fill >= 960 + 1920 * c.emitPair)
  }

  lemma InvProgress(c: Config, audio: seq<I16>, s: State)
    requires Inv(c, audio, s)
    ensures ProgressIs(c, |audio|, s.cur)
  {
  }

  lemma InvBuffer(c: Config, audio: seq<I16>, s: State)
    requires Inv(c, audio, s)
    ensures |FillBuf(s)| == NMAX && FillBuf(s)[..|audio|] == audio
  {
  }

  /** However the samples were chunked, progress depends only on how many are in. */
  lemma ProgressIgnoresChunking(c: Config, b0: seq<I16>, b1: seq<I16>, ms: seq<Msg>)
    requires Sane(c) && Buffers(b0, b1)
    ensures ProgressIs(c, |Accepted(ms)|, Run(c, b0, b1, ms).cur)
  {
    RunInv(c, b0, b1, ms);
    InvProgress(c, Accepted(ms), Run(c, b0, b1, ms));
  }

  /** The buffer being written. */
  function FillBuf(s: State): seq<I16> {
    if s.fillIdx < |s.bufs| then s.bufs[s.fillIdx] else []
  }

  lemma BufferHolds(c: Config, b0: seq<I16>, b1: seq<I16>, ms: seq<Msg>)
    requires Sane(c) && Buffers(b0, b1)
    ensures
      var s := Run(c, b0, b1, ms);
      |FillBuf(s)| == NMAX && FillBuf(s)[..|Accepted(ms)|] == Accepted(ms)
  {
    RunInv(c, b0, b1, ms);
    InvBuffer(c, Accepted(ms), Run(c, b0, b1, ms));
  }

  lemma PrefixOfPrefix<T>(s: seq<T>, a: seq<T>, n: nat)
    requires n <= |a| <= |s| && s[..|a|] == a
    ensures s[..n] == a[..n]
  {
    assert s[..n] == s[..|a|][..n];
  }

  /** The bundle that has left for the slot in progress points at a prefix of its
      samples, and was never early: at the default emit point the prefix is at least
      168 000 samples. */
  lemma SentBundleIsAPrefix(c: Config, b0: seq<I16>, b1: seq<I16>, ms: seq<Msg>)
    requires Sane(c) && Buffers(b0, b1) && Run(c, b0, b1, ms).cur.sent
    ensures
      var s := Run(c, b0, b1, ms);
      |s.bundles| > 0 &&
      var b := s.bundles[|s.bundles| - 1];
      && b.epoch == s.epoch && b.buf == s.fillIdx
      && 960 + 1920 * c.emitPair <= b.audioLen <= |Accepted(ms)|
      && b.audioLen <= |FillBuf(s)| && FillBuf(s)[..b.audioLen] == Accepted(ms)[..b.audioLen]
  {
    RunInv(c, b0, b1, ms);
    BufferHolds(c, b0, b1, ms);
    var s := Run(c, b0, b1, ms);
    PrefixOfPrefix(FillBuf(s), Accepted(ms), s.bundles[|s.bundles| - 1].audioLen);
  }

  /** Its spectrogram is that prefix's, at the gain the slot is read at: every pair
      the prefix supports, two rows each, and zeros beyond. */
  lemma SentBundleIsTheSpectrum(c: Config, b0: seq<I16>, b1: seq<I16>, ms: seq<Msg>)
    requires Sane(c) && Buffers(b0, b1) && Run(c, b0, b1, ms).cur.sent
    ensures
      var s := Run(c, b0, b1, ms);
      |s.bundles| > 0 &&
      var b := s.bundles[|s.bundles| - 1];
      && b.validRows == 2 * PairsFor(c, b.audioLen)
      && RowsFilled(c, Accepted(ms), s.cur.shift, b.spec, PairsFor(c, b.audioLen))
  {
    RunInv(c, b0, b1, ms);
  }

  /** With a waterfall, what is computed after the bundle has left is right too: the
      slot's spectrogram then holds the rows from the bundle's valid ones on, and zeros
      before and after them. Without one there is no spectrogram any more. */
  lemma LaterRowsAreTheSpectrum(c: Config, b0: seq<I16>, b1: seq<I16>, ms: seq<Msg>)
    requires Sane(c) && Buffers(b0, b1) && Run(c, b0, b1, ms).cur.sent
    ensures
      var s := Run(c, b0, b1, ms);
      |s.bundles| > 0 &&
      var from := PairsFor(c, s.bundles[|s.bundles| - 1].audioLen);
      && s.bundles[|s.bundles| - 1].validRows == 2 * from <= 2 * s.cur.nextPair
      && s.cur.nextPair == PairsFor(c, |Accepted(ms)|)
      && (c.wf && from < N_PAIRS ==>
            RowsBetween(c, Accepted(ms), s.cur.shift, s.cur.spec, from, s.cur.nextPair))
      && (!c.wf || from == N_PAIRS ==> s.cur.spec == [])
  {
    RunInv(c, b0, b1, ms);
  }
}

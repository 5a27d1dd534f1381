/** The tone sums and waterfall rows of the incremental spectrogram task, on every run:
    the tables that leave with a bundle are the direct sums of the rows it carries, and
    the rows offered to the waterfall are the slot's pairs in order. */
module Stage1Sums {

  import opened Common
  import opened PairKernel
  import opened Stage1
  import opened Stage1Runs
  import Allsum

  // ---- One table ------------------------------------------------------------------------

  /** What cell `i` of a table holds once the pairs from `from` to `pairs` are in. */
  function WantedCell(c: Config, ia: nat, audio: seq<I16>, shift: nat, from: nat, pairs: nat, i: nat): int
    requires Sane(c)
  {
    if 2 * from <= i % N_TIME < 2 * pairs
    then Allsum.CarrierSum(WantedRow(c, audio, shift, from, pairs, i % N_TIME), ia + i / N_TIME)
    else 0
  }

  /** The columns of those pairs are the direct sums of their rows, the rest are zero. */
  ghost predicate TableBetween(c: Config, band: Band, table: seq<Allsum.F32Int>, audio: seq<I16>, shift: nat,
                               from: nat, pairs: nat)
    requires Sane(c)
  {
    && |table| == band.n * N_TIME
    && forall i: nat :: i < |table| ==> table[i] == WantedCell(c, band.ia, audio, shift, from, pairs, i)
  }

  /** The two columns of pair `j`, from its rows. */
  function WithPair(table: seq<Allsum.F32Int>, rows: (seq<U16>, seq<U16>), ia: nat, j: nat): seq<Allsum.F32Int>
    requires |rows.0| > 0 && |rows.1| > 0
  {
    WithColumn(WithColumn(table, rows.0, ia, 2 * j), rows.1, ia, 2 * j + 1)
  }

  lemma CellNext(c: Config, ia: nat, audio: seq<I16>, shift: nat, from: nat, j: nat, i: nat)
    requires Sane(c) && from <= j
    ensures
      var rows := Rows(c, audio, j, shift);
      WantedCell(c, ia, audio, shift, from, j + 1, i)
      == if i % N_TIME == 2 * j + 1 then Allsum.CarrierSum(rows.1, ia + i / N_TIME)
         else if i % N_TIME == 2 * j then Allsum.CarrierSum(rows.0, ia + i / N_TIME)
         else WantedCell(c, ia, audio, shift, from, j, i)
  {
    NextWanted(c, audio, shift, from, j, i % N_TIME);
  }

  lemma TableNext(c: Config, band: Band, table: seq<Allsum.F32Int>, audio: seq<I16>, shift: nat, from: nat, j: nat)
    requires Sane(c) && from <= j && TableBetween(c, band, table, audio, shift, from, j)
    ensures TableBetween(c, band, WithPair(table, Rows(c, audio, j, shift), band.ia, j), audio, shift, from, j + 1)
  {
    var now := WithPair(table, Rows(c, audio, j, shift), band.ia, j);
    forall i: nat | i < |now| ensures now[i] == WantedCell(c, band.ia, audio, shift, from, j + 1, i) {
      CellNext(c, band.ia, audio, shift, from, j, i);
      assert table[i] == WantedCell(c, band.ia, audio, shift, from, j, i);
    }
  }

  /** More audio does not change the rows already computed. */
  lemma WantedExtend(c: Config, audio: seq<I16>, more: seq<I16>, shift: nat, from: nat, pairs: nat, m: nat)
    requires Sane(c) && (pairs == 0 || Need(pairs - 1) <= |audio|)
    ensures WantedRow(c, audio + more, shift, from, pairs, m) == WantedRow(c, audio, shift, from, pairs, m)
  {
    if m < 2 * pairs {
      var n := Need(m / 2);
      assert n <= Need(pairs - 1);
      assert (audio + more)[..n] == audio[..n];
      RowsOfPrefix(c, audio, audio + more, m / 2, shift);
    }
  }

  lemma TableExtend(c: Config, band: Band, table: seq<Allsum.F32Int>, audio: seq<I16>, more: seq<I16>, shift: nat,
                    from: nat, pairs: nat)
    requires Sane(c) && TableBetween(c, band, table, audio, shift, from, pairs)
    requires pairs == 0 || Need(pairs - 1) <= |audio|
    ensures TableBetween(c, band, table, audio + more, shift, from, pairs)
  {
    forall i: nat | i < |table| ensures table[i] == WantedCell(c, band.ia, audio + more, shift, from, pairs, i) {
      WantedExtend(c, audio, more, shift, from, pairs, i % N_TIME);
      assert table[i] == WantedCell(c, band.ia, audio, shift, from, pairs, i);
    }
  }

  lemma NoPairsNoSums(c: Config, band: Band, audio: seq<I16>, shift: nat, pairs: nat)
    requires Sane(c)
    ensures TableBetween(c, band, NoSums(band.n * N_TIME), audio, shift, pairs, pairs)
  {
  }

  // ---- Both tables, on every run --------------------------------------------------------

  ghost predicate SumsBetween(c: Config, sums: Sums, audio: seq<I16>, shift: nat, from: nat, pairs: nat)
    requires Sane(c)
  {
    && TableBetween(c, c.head, sums.head, audio, shift, from, pairs)
    && TableBetween(c, c.tail, sums.tail, audio, shift, from, pairs)
  }

  lemma SumsNext(c: Config, sums: Sums, audio: seq<I16>, shift: nat, from: nat, j: nat)
    requires Sane(c) && from <= j && SumsBetween(c, sums, audio, shift, from, j)
    ensures SumsBetween(c, WithPairs(c, sums, Rows(c, audio, j, shift), j), audio, shift, from, j + 1)
  {
    TableNext(c, c.head, sums.head, audio, shift, from, j);
    TableNext(c, c.tail, sums.tail, audio, shift, from, j);
  }

  lemma SumsExtend(c: Config, sums: Sums, audio: seq<I16>, more: seq<I16>, shift: nat, from: nat, pairs: nat)
    requires Sane(c) && SumsBetween(c, sums, audio, shift, from, pairs)
    requires pairs == 0 || Need(pairs - 1) <= |audio|
    ensures SumsBetween(c, sums, audio + more, shift, from, pairs)
  {
    TableExtend(c, c.head, sums.head, audio, more, shift, from, pairs);
    TableExtend(c, c.tail, sums.tail, audio, more, shift, from, pairs);
  }

  lemma ZeroSumsAre(c: Config, audio: seq<I16>, shift: nat, pairs: nat)
    requires Sane(c)
    ensures SumsBetween(c, ZeroSums(c), audio, shift, pairs, pairs)
  {
    NoPairsNoSums(c, c.head, audio, shift, pairs);
    NoPairsNoSums(c, c.tail, audio, shift, pairs);
  }

  /** Pairs the bundle that has left last had. */
  function PairsSent(c: Config, s: State): nat {
    if s.bundles == [] then 0 else PairsFor(c, s.bundles[|s.bundles| - 1].audioLen)
  }

  /** The tables of the slot in progress, and once its bundle has left the bundle's. */
  ghost predicate SumsInv(c: Config, audio: seq<I16>, s: State)
    requires Sane(c)
  {
    if !s.cur.sent then SumsBetween(c, s.cur.sums, audio, s.cur.shift, 0, s.cur.nextPair)
    else
      && s.bundles != []
      && SumsBetween(c, s.bundles[|s.bundles| - 1].sums, audio, s.cur.shift, 0, PairsSent(c, s))
      && LaterSums(c, audio, s)
  }

  ghost predicate LaterSums(c: Config, audio: seq<I16>, s: State)
    requires Sane(c)
  {
    if c.wf && PairsSent(c, s) < N_PAIRS
    then SumsBetween(c, s.cur.sums, audio, s.cur.shift, PairsSent(c, s), s.cur.nextPair)
    else s.cur.sums == Sums([], [])
  }

  /** Pair `j`'s rows depend on the samples that are in. */
  lemma RowsInBuffer(c: Config, audio: seq<I16>, s: State)
    requires Filled(c, audio, s) && PairReady(c, s)
    ensures Rows(c, s.bufs[s.fillIdx], s.cur.nextPair, s.cur.shift) == Rows(c, audio, s.cur.nextPair, s.cur.shift)
  {
    var buf, n := s.bufs[s.fillIdx], Need(s.cur.nextPair);
    assert audio[..n] == buf[..|audio|][..n] == buf[..n];
    RowsOfPrefix(c, audio, buf, s.cur.nextPair, s.cur.shift);
  }

  function WithPairs(c: Config, sums: Sums, rows: (seq<U16>, seq<U16>), j: nat): Sums
    requires |rows.0| > 0 && |rows.1| > 0
  {
    WithColumns(c, WithColumns(c, sums, rows.0, 2 * j), rows.1, 2 * j + 1)
  }

  /** What computing a pair does to the tables. */
  ghost predicate PairAdded(c: Config, audio: seq<I16>, s: State, t: State)
    requires Sane(c)
  {
    var j := s.cur.nextPair;
    var rows := Rows(c, audio, j, s.cur.shift);
    && t.cur.sums == WithPairs(c, s.cur.sums, rows, j)
    && t.cur.nextPair == j + 1 && t.cur.sent == s.cur.sent && t.cur.shift == s.cur.shift && t.bundles == s.bundles
  }

  lemma ComputePairAdds(c: Config, audio: seq<I16>, s: State)
    requires Filled(c, audio, s) && PairReady(c, s)
    ensures PairAdded(c, audio, s, ComputePair(c, s))
  {
    RowsInBuffer(c, audio, s);
  }

  lemma PairAddedSums(c: Config, audio: seq<I16>, s: State, t: State, from: nat)
    requires Sane(c) && PairAdded(c, audio, s, t) && from <= s.cur.nextPair
    requires SumsBetween(c, s.cur.sums, audio, s.cur.shift, from, s.cur.nextPair)
    ensures SumsBetween(c, t.cur.sums, audio, t.cur.shift, from, t.cur.nextPair)
    ensures t.cur.sent == s.cur.sent && t.bundles == s.bundles && t.cur.shift == s.cur.shift
  {
    SumsNext(c, s.cur.sums, audio, s.cur.shift, from, s.cur.nextPair);
  }

  lemma ComputePairSums(c: Config, audio: seq<I16>, s: State)
    requires Filled(c, audio, s) && s.cur.locked && PairReady(c, s) && SumsInv(c, audio, s)
    ensures SumsInv(c, audio, ComputePair(c, s))
  {
    ComputePairAdds(c, audio, s);
    if s.cur.sent {
      LaterNeedsRoom(c, audio, s);
    }
    PairAddedSums(c, audio, s, ComputePair(c, s), if s.cur.sent then PairsSent(c, s) else 0);
  }

  lemma LaterNeedsRoom(c: Config, audio: seq<I16>, s: State)
    requires Filled(c, audio, s) && s.cur.sent && PairReady(c, s)
    ensures c.wf && PairsSent(c, s) < N_PAIRS && PairsSent(c, s) <= s.cur.nextPair
  {
  }

  lemma {:induction false} PairLoopSums(c: Config, audio: seq<I16>, s: State)
    requires Filled(c, audio, s) && s.cur.locked && SumsInv(c, audio, s)
    ensures SumsInv(c, audio, PairLoop(c, s))
    decreases Limit(c) - s.cur.nextPair
  {
    if PairReady(c, s) {
      ComputePairKeeps(c, audio, s);
      ComputePairSums(c, audio, s);
      PairLoopSums(c, audio, ComputePair(c, s));
    }
  }

  lemma EmitSums(c: Config, audio: seq<I16>, s: State)
    requires Filled(c, audio, s) && !s.cur.sent && SumsInv(c, audio, s) && s.cur.nextPair == PairsFor(c, |audio|)
    ensures SumsInv(c, audio, Emit(c, s))
  {
    ZeroSumsAre(c, audio, s.cur.shift, s.cur.nextPair);
  }

  lemma LockSums(c: Config, audio: seq<I16>, s: State)
    requires Filled(c, audio, s) && SumsInv(c, audio, s)
    ensures SumsInv(c, audio, Lock(c, s))
  {
    if Lock(c, s) != s {
      assert !s.cur.sent && s.cur.nextPair == 0;
      SumsOfNoPairs(c, c.head, s.cur.sums.head, audio, s.cur.shift, Lock(c, s).cur.shift);
      SumsOfNoPairs(c, c.tail, s.cur.sums.tail, audio, s.cur.shift, Lock(c, s).cur.shift);
    }
  }

  lemma SumsOfNoPairs(c: Config, band: Band, table: seq<Allsum.F32Int>, audio: seq<I16>, shift: nat, shift': nat)
    requires Sane(c) && TableBetween(c, band, table, audio, shift, 0, 0)
    ensures TableBetween(c, band, table, audio, shift', 0, 0)
  {
    forall i: nat | i < |table| ensures table[i] == 0 {
      assert table[i] == WantedCell(c, band.ia, audio, shift, 0, 0, i);
    }
  }

  lemma AdvanceSums(c: Config, audio: seq<I16>, s: State)
    requires Filled(c, audio, s) && SumsInv(c, audio, s)
    ensures SumsInv(c, audio, Advance(c, s))
  {
    LockKeeps(c, audio, s);
    LockSums(c, audio, s);
    var s1 := Lock(c, s);
    if s1.cur.locked {
      PairLoopKeeps(c, audio, s1);
      PairLoopSums(c, audio, s1);
      var s2 := PairLoop(c, s1);
      if s2.cur.nextPair >= c.emitPair && !s2.cur.sent {
        EmitSums(c, audio, s2);
      }
    }
  }

  lemma AppendSums(c: Config, audio: seq<I16>, s: State, data: seq<I16>)
    requires Filled(c, audio, s) && |audio| + |data| <= NMAX && SumsInv(c, audio, s)
    ensures SumsInv(c, audio + data, Appended(s, data))
  {
    if s.cur.sent {
      SentPairsFit(c, audio, s);
      SumsExtend(c, s.bundles[|s.bundles| - 1].sums, audio, data, s.cur.shift, 0, PairsSent(c, s));
      if c.wf && PairsSent(c, s) < N_PAIRS {
        SumsExtend(c, s.cur.sums, audio, data, s.cur.shift, PairsSent(c, s), s.cur.nextPair);
      }
    } else {
      SumsExtend(c, s.cur.sums, audio, data, s.cur.shift, 0, s.cur.nextPair);
    }
  }

  lemma SentPairsFit(c: Config, audio: seq<I16>, s: State)
    requires Filled(c, audio, s) && s.cur.sent
    ensures PairsSent(c, s) == 0 || Need(PairsSent(c, s) - 1) <= |audio|
  {
  }

  lemma StepSums(c: Config, audio: seq<I16>, s: State, msg: Msg)
    requires Inv(c, audio, s) && SumsInv(c, audio, s)
    ensures SumsInv(c, AcceptedAfter(audio, msg), Step(c, s, msg))
  {
    match msg
    case Samples(data) =>
      if |audio| + |data| <= NMAX {
        AppendKeeps(c, audio, s, data);
        AppendSums(c, audio, s, data);
        AdvanceSums(c, audio + data, Appended(s, data));
      }
    case SlotEnd(_, _) => ZeroSumsAre(c, [], 0, 0);
    case SlotResetMark => ZeroSumsAre(c, [], 0, 0);
  }

  lemma {:induction false} RunSums(c: Config, b0: seq<I16>, b1: seq<I16>, ms: seq<Msg>)
    requires Sane(c) && Buffers(b0, b1)
    ensures SumsInv(c, Accepted(ms), Run(c, b0, b1, ms))
  {
    if ms == [] {
      ZeroSumsAre(c, [], 0, 0);
    } else {
      var init := ms[..|ms| - 1];
      RunInv(c, b0, b1, init);
      RunSums(c, b0, b1, init);
      StepSums(c, Accepted(init), Run(c, b0, b1, init), ms[|ms| - 1]);
    }
  }

  // ---- What leaves with the bundle --------------------------------------------------------

  /** Every column of a table is the direct sums of a row of the spectrogram, or zero. */
  ghost predicate SumsOfRows(c: Config, band: Band, table: seq<Allsum.F32Int>, spec: seq<U16>, rows: nat)
    requires Sane(c) && |spec| == SpecLen(c)
  {
    && |table| == band.n * N_TIME
    && forall i: nat :: i < |table| ==>
         table[i] == if i % N_TIME < rows then Allsum.CarrierSum(RowAt(c, spec, i % N_TIME), band.ia + i / N_TIME) else 0
  }

  lemma TableOfRows(c: Config, band: Band, table: seq<Allsum.F32Int>, spec: seq<U16>, audio: seq<I16>, shift: nat, pairs: nat)
    requires Sane(c) && RowsFilled(c, audio, shift, spec, pairs)
    requires TableBetween(c, band, table, audio, shift, 0, pairs)
    ensures SumsOfRows(c, band, table, spec, 2 * pairs)
  {
    forall i: nat | i < |table|
      ensures table[i] == if i % N_TIME < 2 * pairs
                          then Allsum.CarrierSum(RowAt(c, spec, i % N_TIME), band.ia + i / N_TIME) else 0
    {
      assert table[i] == WantedCell(c, band.ia, audio, shift, 0, pairs, i);
      assert RowAt(c, spec, i % N_TIME) == WantedRow(c, audio, shift, 0, pairs, i % N_TIME);
    }
  }

  /** The tables a bundle carries are the direct tone sums of its valid rows, and zero
      past them. */
  lemma SentSumsAreTheRows(c: Config, b0: seq<I16>, b1: seq<I16>, ms: seq<Msg>)
    requires Sane(c) && Buffers(b0, b1) && Run(c, b0, b1, ms).cur.sent
    ensures
      var s := Run(c, b0, b1, ms);
      |s.bundles| > 0 &&
      var b := s.bundles[|s.bundles| - 1];
      && |b.spec| == SpecLen(c)
      && SumsOfRows(c, c.head, b.sums.head, b.spec, b.validRows)
      && SumsOfRows(c, c.tail, b.sums.tail, b.spec, b.validRows)
  {
    SentBundleIsTheSpectrum(c, b0, b1, ms);
    RunSums(c, b0, b1, ms);
    var s := Run(c, b0, b1, ms);
    var b := s.bundles[|s.bundles| - 1];
    TableOfRows(c, c.head, b.sums.head, b.spec, Accepted(ms), s.cur.shift, PairsSent(c, s));
    TableOfRows(c, c.tail, b.sums.tail, b.spec, Accepted(ms), s.cur.shift, PairsSent(c, s));
  }

  // ---- The waterfall ------------------------------------------------------------------------

  /** The row offered for pair `j`. */
  function WantedTick(c: Config, audio: seq<I16>, s: State, j: nat): Tick
    requires Sane(c)
  {
    var rows := Rows(c, audio, j, s.cur.shift);
    Tick(s.epoch, 2 * j + 1, c.palette(rows.0, rows.1))
  }

  /** The rows offered for the slot in progress: one for each of its pairs, in order,
      after everything offered before. */
  ghost predicate TicksInv(c: Config, audio: seq<I16>, s: State)
    requires Sane(c)
  {
    if !c.wf then s.ticks == []
    else
      && s.cur.nextPair <= |s.ticks|
      && (forall j: nat :: j < s.cur.nextPair ==> s.ticks[|s.ticks| - s.cur.nextPair + j] == WantedTick(c, audio, s, j))
      && (forall i :: 0 <= i < |s.ticks| - s.cur.nextPair ==> s.ticks[i].epoch < s.epoch)
  }

  lemma PairTick(c: Config, audio: seq<I16>, s: State)
    requires Filled(c, audio, s) && PairReady(c, s) && TicksInv(c, audio, s)
    ensures TicksInv(c, audio, ComputePair(c, s))
  {
    RowsInBuffer(c, audio, s);
    var t := ComputePair(c, s);
    if c.wf {
      assert t.ticks == s.ticks + [WantedTick(c, audio, s, s.cur.nextPair)];
      forall j: nat | j < t.cur.nextPair
        ensures t.ticks[|t.ticks| - t.cur.nextPair + j] == WantedTick(c, audio, t, j)
      {
        assert WantedTick(c, audio, t, j) == WantedTick(c, audio, s, j);
      }
    }
  }

  lemma {:induction false} PairLoopTicks(c: Config, audio: seq<I16>, s: State)
    requires Filled(c, audio, s) && s.cur.locked && TicksInv(c, audio, s)
    ensures TicksInv(c, audio, PairLoop(c, s))
    decreases Limit(c) - s.cur.nextPair
  {
    if PairReady(c, s) {
      ComputePairKeeps(c, audio, s);
      PairTick(c, audio, s);
      PairLoopTicks(c, audio, ComputePair(c, s));
    }
  }

  lemma SameTicks(c: Config, audio: seq<I16>, audio': seq<I16>, s: State, t: State)
    requires Sane(c) && TicksInv(c, audio, s)
    requires t.ticks == s.ticks && t.epoch == s.epoch && t.cur.nextPair == s.cur.nextPair
    requires forall j: nat :: j < s.cur.nextPair ==> WantedTick(c, audio', t, j) == WantedTick(c, audio, s, j)
    ensures TicksInv(c, audio', t)
  {
  }

  lemma AdvanceTicks(c: Config, audio: seq<I16>, s: State)
    requires Filled(c, audio, s) && TicksInv(c, audio, s)
    ensures TicksInv(c, audio, Advance(c, s))
  {
    LockKeeps(c, audio, s);
    var s1 := Lock(c, s);
    SameTicks(c, audio, audio, s, s1);
    if s1.cur.locked {
      PairLoopTicks(c, audio, s1);
      SameTicks(c, audio, audio, PairLoop(c, s1), Advance(c, s));
    }
  }

  lemma AppendTicks(c: Config, audio: seq<I16>, s: State, data: seq<I16>)
    requires Filled(c, audio, s) && |audio| + |data| <= NMAX && TicksInv(c, audio, s)
    ensures TicksInv(c, audio + data, Appended(s, data))
  {
    var t := Appended(s, data);
    forall j: nat | j < s.cur.nextPair
      ensures WantedTick(c, audio + data, t, j) == WantedTick(c, audio, s, j)
    {
      WantedExtend(c, audio, data, s.cur.shift, 0, s.cur.nextPair, 2 * j);
      WantedExtend(c, audio, data, s.cur.shift, 0, s.cur.nextPair, 2 * j + 1);
    }
    SameTicks(c, audio, audio + data, s, t);
  }

  /** A slot done or discarded: its ticks are of an epoch that is over. */
  lemma OldTicks(c: Config, audio: seq<I16>, s: State, t: State)
    requires Sane(c) && TicksInv(c, audio, s)
    requires t.ticks == s.ticks && t.epoch == s.epoch + 1 && t.cur.nextPair == 0
    ensures TicksInv(c, [], t)
  {
    if c.wf {
      forall i | 0 <= i < |t.ticks| ensures t.ticks[i].epoch < t.epoch {
        var j := i - (|s.ticks| - s.cur.nextPair);
        if j >= 0 {
          assert s.ticks[|s.ticks| - s.cur.nextPair + j] == WantedTick(c, audio, s, j);
        }
      }
    }
  }

  lemma StepTicks(c: Config, audio: seq<I16>, s: State, msg: Msg)
    requires Inv(c, audio, s) && TicksInv(c, audio, s)
    ensures TicksInv(c, AcceptedAfter(audio, msg), Step(c, s, msg))
  {
    match msg
    case Samples(data) =>
      if |audio| + |data| <= NMAX {
        AppendKeeps(c, audio, s, data);
        AppendTicks(c, audio, s, data);
        AdvanceTicks(c, audio + data, Appended(s, data));
      }
    case SlotEnd(wavIdx, _) =>
      AdvanceTicks(c, audio, s);
      OldTicks(c, audio, Advance(c, s), Finalize(c, s, wavIdx));
    case SlotResetMark => OldTicks(c, audio, s, Reset(c, s));
  }

  /** On every run the rows offered to a waterfall are those of the slots' pairs, in
      order: the last `nextPair` of them are the slot in progress's, each from its own
      two spectrogram rows, and all before them are of earlier slots. Without a waterfall
      none are offered. */
  lemma {:induction false} RunTicks(c: Config, b0: seq<I16>, b1: seq<I16>, ms: seq<Msg>)
    requires Sane(c) && Buffers(b0, b1)
    ensures TicksInv(c, Accepted(ms), Run(c, b0, b1, ms))
  {
    if ms != [] {
      var init := ms[..|ms| - 1];
      RunInv(c, b0, b1, init);
      RunTicks(c, b0, b1, init);
      StepTicks(c, Accepted(init), Run(c, b0, b1, init), ms[|ms| - 1]);
    }
  }
}

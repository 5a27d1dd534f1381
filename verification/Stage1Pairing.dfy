/** How bundles and slots pair up. The consumer has nothing but the order of
    receipt: the k-th bundle is taken to belong to the k-th slot
    (embedded-poc/embedded-shared/src/stage1_inc.rs:693-695). A reset in mid-slot
    discards the slot but cannot take back a bundle that has already left, so the
    pairing holds only as long as no such reset has happened. */
module Stage1Pairing {

  import opened Common
  import opened PairKernel
  import opened Stage1
  import opened Stage1Runs

  /** Resets that arrived after that slot's bundle had left: their bundles never
      get a slot. */
  function Orphans(c: Config, b0: seq<I16>, b1: seq<I16>, ms: seq<Msg>): nat
    requires Sane(c) && Buffers(b0, b1)
  {
    if ms == [] then 0
    else
      var init := ms[..|ms| - 1];
      Orphans(c, b0, b1, init)
      + if ms[|ms| - 1].SlotResetMark? && Run(c, b0, b1, init).cur.sent then 1 else 0
  }

  /** Those of them that came before the last completed slot. */
  function OrphansBehind(c: Config, b0: seq<I16>, b1: seq<I16>, ms: seq<Msg>): nat
    requires Sane(c) && Buffers(b0, b1)
  {
    if ms == [] then 0
    else if ms[|ms| - 1].SlotEnd? then Orphans(c, b0, b1, ms[..|ms| - 1])
    else OrphansBehind(c, b0, b1, ms[..|ms| - 1])
  }

  // ---- What one message does to the queues ------------------------------------------

  /** `t` has at most one bundle more than `s`, and it is this epoch's. */
  ghost predicate MaySend(s: State, t: State) {
    && t.slots == s.slots && t.epoch == s.epoch && t.fillIdx == s.fillIdx
    && (s.cur.sent ==> t.cur.sent)
    && (if t.cur.sent == s.cur.sent then t.bundles == s.bundles
        else |t.bundles| == |s.bundles| + 1 && t.bundles[..|s.bundles|] == s.bundles
             && t.bundles[|s.bundles|].epoch == s.epoch && t.bundles[|s.bundles|].buf == s.fillIdx)
  }

  lemma {:induction false} PairLoopFrame(c: Config, s: State)
    requires Ok(c, s)
    ensures SameBeyondSpec(s, PairLoop(c, s))
    decreases Limit(c) - s.cur.nextPair
  {
    if PairReady(c, s) {
      PairLoopFrame(c, ComputePair(c, s));
    }
  }

  lemma AdvanceSends(c: Config, s: State)
    requires Ok(c, s)
    ensures MaySend(s, Advance(c, s)) && Advance(c, s).bufs == s.bufs
  {
    PairLoopFrame(c, Lock(c, s));
  }

  lemma IngestSends(c: Config, s: State, data: seq<I16>)
    requires Ok(c, s)
    ensures MaySend(s, Ingest(c, s, data))
    ensures Ingest(c, s, data).bufs[1 - s.fillIdx] == s.bufs[1 - s.fillIdx]
  {
    if s.cur.fill + |data| <= NMAX {
      PeakBound(s.cur.peak, data);
      AdvanceSends(c, Appended(s, data));
    }
  }

  lemma FlushSends(c: Config, s: State)
    requires Ok(c, s)
    ensures MaySend(s, Flush(c, s)) && Flush(c, s).cur.sent
    ensures Flush(c, s).bufs == s.bufs && Flush(c, s).cur.fill == s.cur.fill
  {
    AdvanceSends(c, s);
    PairLoopFrame(c, Lock(c, s));
  }

  // ---- Counting -----------------------------------------------------------------------

  /** Every bundle ever sent is accounted for: one per completed slot, one per reset
      that came too late, and one if the slot in progress has sent its own. */
  lemma {:induction false} BundleCount(c: Config, b0: seq<I16>, b1: seq<I16>, ms: seq<Msg>)
    requires Sane(c) && Buffers(b0, b1)
    ensures
      var s := Run(c, b0, b1, ms);
      |s.bundles| == |s.slots| + Orphans(c, b0, b1, ms) + if s.cur.sent then 1 else 0
  {
    if ms != [] {
      var init, msg := ms[..|ms| - 1], ms[|ms| - 1];
      BundleCount(c, b0, b1, init);
      match msg
      case Samples(data) => IngestSends(c, Run(c, b0, b1, init), data);
      case SlotEnd(_, _) => FlushSends(c, Run(c, b0, b1, init));
      case SlotResetMark =>
    }
  }

  /** At most one bundle and at most one slot per epoch, in order. */
  ghost predicate InOrder(s: State) {
    && (forall i, j :: 0 <= i < j < |s.bundles| ==> s.bundles[i].epoch < s.bundles[j].epoch)
    && (forall i :: 0 <= i < |s.bundles| ==>
          s.bundles[i].epoch < s.epoch || (s.cur.sent && s.bundles[i].epoch == s.epoch))
    && (forall i :: 0 <= i < |s.slots| ==> s.slots[i].epoch < s.epoch)
  }

  lemma SendKeepsOrder(s: State, t: State)
    requires InOrder(s) && MaySend(s, t)
    ensures InOrder(t)
  {
    if t.cur.sent != s.cur.sent {
      forall i | 0 <= i < |s.bundles| ensures t.bundles[i] == s.bundles[i] {
        assert t.bundles[i] == t.bundles[..|s.bundles|][i];
      }
    }
  }

  lemma {:induction false} RunInOrder(c: Config, b0: seq<I16>, b1: seq<I16>, ms: seq<Msg>)
    requires Sane(c) && Buffers(b0, b1)
    ensures InOrder(Run(c, b0, b1, ms))
  {
    if ms != [] {
      var init, msg := ms[..|ms| - 1], ms[|ms| - 1];
      var s := Run(c, b0, b1, init);
      RunInOrder(c, b0, b1, init);
      match msg
      case Samples(data) =>
        IngestSends(c, s, data);
        SendKeepsOrder(s, Ingest(c, s, data));
      case SlotEnd(_, _) =>
        FlushSends(c, s);
        SendKeepsOrder(s, Flush(c, s));
      case SlotResetMark =>
    }
  }

  // ---- A completed slot and its bundle ------------------------------------------------

  /** What the bundle of a just-finished slot is, sent early or late. */
  lemma FlushedBundle(c: Config, audio: seq<I16>, s: State)
    requires Inv(c, audio, s)
    ensures
      var t := Flush(c, s);
      |t.bundles| > 0 && Carries(c, t.bundles[|t.bundles| - 1], s.epoch, s.fillIdx, audio, s.cur.shift)
  {
    AdvanceKeeps(c, audio, s);
    AdvanceSends(c, s);
    PairLoopFrame(c, s);
    assert Lock(c, s) == s;
  }

  /** Slot `k` of `t` has just ended and bundle `i` is its own: no other bundle is of
      its epoch; the two point at the same buffer, which holds the slot's samples,
      and the bundle is a prefix of them with their spectrum. */
  ghost predicate Ended(c: Config, t: State, k: nat, i: nat, audio: seq<I16>, shift: nat, wavIdx: nat)
    requires Ok(c, t)
  {
    && |t.slots| == k + 1 && |t.bundles| == i + 1
    && t.slots[k].audioLen == |audio| && t.slots[k].wavIdx == wavIdx && t.slots[k].buf == 1 - t.fillIdx
    && |audio| <= NMAX && t.bufs[1 - t.fillIdx][..|audio|] == audio
    && Carries(c, t.bundles[i], t.slots[k].epoch, t.slots[k].buf, audio, shift)
    && (forall m :: 0 <= m < |t.bundles| ==> (t.bundles[m].epoch == t.slots[k].epoch <==> m == i))
  }

  lemma FinalizeEnds(c: Config, audio: seq<I16>, s: State, wavIdx: nat, orphans: nat)
    requires Inv(c, audio, s) && InOrder(s)
    requires |s.bundles| == |s.slots| + orphans + if s.cur.sent then 1 else 0
    ensures Ended(c, Finalize(c, s, wavIdx), |s.slots|, |s.slots| + orphans, audio, s.cur.shift, wavIdx)
  {
    FlushSends(c, s);
    FlushedBundle(c, audio, s);
    SendKeepsOrder(s, Flush(c, s));
    assert Finalize(c, s, wavIdx).bundles == Flush(c, s).bundles;
  }

  lemma StepEnds(c: Config, audio: seq<I16>, s: State, end: Msg, orphans: nat)
    requires Inv(c, audio, s) && InOrder(s) && end.SlotEnd?
    requires Counted(s, orphans)
    ensures Ended(c, Step(c, s, end), |s.slots|, |s.slots| + orphans, audio, s.cur.shift, end.wavIdx)
  {
    FinalizeEnds(c, audio, s, end.wavIdx, orphans);
  }

  predicate Counted(s: State, orphans: nat) {
    |s.bundles| == |s.slots| + orphans + if s.cur.sent then 1 else 0
  }

  lemma RunFacts(c: Config, b0: seq<I16>, b1: seq<I16>, ms: seq<Msg>)
    requires Sane(c) && Buffers(b0, b1)
    ensures Inv(c, Accepted(ms), Run(c, b0, b1, ms)) && InOrder(Run(c, b0, b1, ms))
    ensures Counted(Run(c, b0, b1, ms), Orphans(c, b0, b1, ms))
  {
    RunInv(c, b0, b1, ms);
    BundleCount(c, b0, b1, ms);
    RunInOrder(c, b0, b1, ms);
  }

  lemma NextEnds(c: Config, b0: seq<I16>, b1: seq<I16>, ms: seq<Msg>, end: Msg)
    requires Sane(c) && Buffers(b0, b1) && end.SlotEnd?
    ensures
      var s := Run(c, b0, b1, ms);
      Ended(c, Step(c, s, end), |s.slots|, |s.slots| + Orphans(c, b0, b1, ms), Accepted(ms), s.cur.shift, end.wavIdx)
  {
    RunFacts(c, b0, b1, ms);
    var s := Run(c, b0, b1, ms);
    StepEnds(c, Accepted(ms), s, end, Orphans(c, b0, b1, ms));
  }

  /** When slot number k ends, its own bundle is number k + orphans. */
  lemma SlotAndItsBundle(c: Config, b0: seq<I16>, b1: seq<I16>, ms: seq<Msg>, wavIdx: nat, total: nat)
    requires Sane(c) && Buffers(b0, b1)
    ensures
      var s := Run(c, b0, b1, ms);
      Ended(c, Run(c, b0, b1, ms + [SlotEnd(wavIdx, total)]),
            |s.slots|, |s.slots| + Orphans(c, b0, b1, ms), Accepted(ms), s.cur.shift, wavIdx)
  {
    NextEnds(c, b0, b1, ms, SlotEnd(wavIdx, total));
    RunSnoc(c, b0, b1, ms, SlotEnd(wavIdx, total));
  }

  /** Every completed slot finds a bundle of its own epoch at its own number. */
  ghost predicate FifoPaired(s: State) {
    && |s.slots| <= |s.bundles|
    && forall k :: 0 <= k < |s.slots| ==> s.bundles[k].epoch == s.slots[k].epoch
  }

  /** The consumer's rule, exactly: k-th bundle with k-th slot is right for every
      slot so far if and only if no reset came too late before the last of them. */
  lemma {:induction false} FifoPairsExactly(c: Config, b0: seq<I16>, b1: seq<I16>, ms: seq<Msg>)
    requires Sane(c) && Buffers(b0, b1)
    ensures FifoPaired(Run(c, b0, b1, ms)) <==> OrphansBehind(c, b0, b1, ms) == 0
  {
    if ms != [] {
      var init, msg := ms[..|ms| - 1], ms[|ms| - 1];
      assert ms == init + [msg];
      FifoPairsExactly(c, b0, b1, init);
      if msg.SlotEnd? {
        FifoAfterSlot(c, b0, b1, init, msg.wavIdx, msg.total);
      } else {
        FifoAfterOther(c, b0, b1, init, msg);
      }
    }
  }

  lemma FifoAfterSlot(c: Config, b0: seq<I16>, b1: seq<I16>, ms: seq<Msg>, wavIdx: nat, total: nat)
    requires Sane(c) && Buffers(b0, b1)
    requires FifoPaired(Run(c, b0, b1, ms)) <==> OrphansBehind(c, b0, b1, ms) == 0
    ensures FifoPaired(Run(c, b0, b1, ms + [SlotEnd(wavIdx, total)])) <==> Orphans(c, b0, b1, ms) == 0
  {
    var e := SlotEnd(wavIdx, total);
    RunSnoc(c, b0, b1, ms, e);
    QueuesGrow(c, Run(c, b0, b1, ms), e);
    BundleCount(c, b0, b1, ms);
    BehindAtMost(c, b0, b1, ms);
    SlotAndItsBundle(c, b0, b1, ms, wavIdx, total);
    PairedAfterSlot(Run(c, b0, b1, ms), Run(c, b0, b1, ms + [e]), Orphans(c, b0, b1, ms), OrphansBehind(c, b0, b1, ms));
  }

  lemma FifoAfterOther(c: Config, b0: seq<I16>, b1: seq<I16>, ms: seq<Msg>, msg: Msg)
    requires Sane(c) && Buffers(b0, b1) && !msg.SlotEnd?
    ensures FifoPaired(Run(c, b0, b1, ms + [msg])) <==> FifoPaired(Run(c, b0, b1, ms))
  {
    RunSnoc(c, b0, b1, ms, msg);
    QueuesGrow(c, Run(c, b0, b1, ms), msg);
    BundleCount(c, b0, b1, ms);
    PairedAfterOther(Run(c, b0, b1, ms), Run(c, b0, b1, ms + [msg]));
  }

  lemma PairedAfterOther(s: State, t: State)
    requires |s.slots| <= |s.bundles| <= |t.bundles| && t.bundles[..|s.bundles|] == s.bundles && t.slots == s.slots
    ensures FifoPaired(t) <==> FifoPaired(s)
  {
    forall k | 0 <= k < |s.slots| ensures t.bundles[k] == s.bundles[k] {
      assert t.bundles[k] == t.bundles[..|s.bundles|][k];
    }
  }

  lemma PairedAfterSlot(s: State, t: State, orphans: nat, behind: nat)
    requires |s.slots| <= |s.bundles| && behind <= orphans
    requires FifoPaired(s) <==> behind == 0
    requires |s.bundles| <= |t.bundles| && t.bundles[..|s.bundles|] == s.bundles
    requires |t.slots| == |s.slots| + 1 && t.slots[..|s.slots|] == s.slots
    requires |t.bundles| == |s.slots| + orphans + 1
    requires forall m :: 0 <= m < |t.bundles| ==>
      (t.bundles[m].epoch == t.slots[|s.slots|].epoch <==> m == |s.slots| + orphans)
    ensures FifoPaired(t) <==> orphans == 0
  {
    forall k | 0 <= k < |s.slots| ensures t.bundles[k] == s.bundles[k] && t.slots[k] == s.slots[k] {
      assert t.bundles[k] == t.bundles[..|s.bundles|][k];
      assert t.slots[k] == t.slots[..|s.slots|][k];
    }
    assert (t.bundles[|s.slots|].epoch == t.slots[|s.slots|].epoch) == (orphans == 0);
  }

  lemma {:induction false} BehindAtMost(c: Config, b0: seq<I16>, b1: seq<I16>, ms: seq<Msg>)
    requires Sane(c) && Buffers(b0, b1)
    ensures OrphansBehind(c, b0, b1, ms) <= Orphans(c, b0, b1, ms)
  {
    if ms != [] {
      BehindAtMost(c, b0, b1, ms[..|ms| - 1]);
    }
  }

  lemma QueuesGrow(c: Config, s: State, msg: Msg)
    requires Ok(c, s)
    ensures
      var t := Step(c, s, msg);
      && |s.bundles| <= |t.bundles| && t.bundles[..|s.bundles|] == s.bundles
      && |s.slots| <= |t.slots| && t.slots[..|s.slots|] == s.slots
      && (!msg.SlotEnd? ==> t.slots == s.slots && t.fillIdx == s.fillIdx
                            && t.bufs[1 - s.fillIdx] == s.bufs[1 - s.fillIdx])
  {
    match msg
    case Samples(data) => IngestSends(c, s, data);
    case SlotEnd(_, _) => FlushSends(c, s);
    case SlotResetMark =>
  }

  // ---- The buffers --------------------------------------------------------------------

  predicate NoSlotEnd(ms: seq<Msg>) {
    forall i :: 0 <= i < |ms| ==> !ms[i].SlotEnd?
  }

  lemma {:induction false} IdleBufferKept(c: Config, b0: seq<I16>, b1: seq<I16>, ms: seq<Msg>, more: seq<Msg>)
    requires Sane(c) && Buffers(b0, b1) && NoSlotEnd(more)
    ensures
      var s, t := Run(c, b0, b1, ms), Run(c, b0, b1, ms + more);
      t.slots == s.slots && t.fillIdx == s.fillIdx && t.bufs[1 - s.fillIdx] == s.bufs[1 - s.fillIdx]
  {
    if more == [] {
      assert ms + more == ms;
    } else {
      var init, msg := more[..|more| - 1], more[|more| - 1];
      assert ms + more == (ms + init) + [msg];
      IdleBufferKept(c, b0, b1, ms, init);
      RunSnoc(c, b0, b1, ms + init, msg);
      QueuesGrow(c, Run(c, b0, b1, ms + init), msg);
    }
  }

  lemma AdvanceSendsAll(c: Config, s: State)
    requires Ok(c, s)
    ensures |Advance(c, s).bundles| > |s.bundles| ==> Advance(c, s).bundles[|s.bundles|].audioLen == s.cur.fill
    ensures Advance(c, s).cur.fill == s.cur.fill
  {
    PairLoopFrame(c, Lock(c, s));
  }

  lemma StepSendsAll(c: Config, audio: seq<I16>, s: State, msg: Msg)
    requires Inv(c, audio, s) && |Step(c, s, msg).bundles| > |s.bundles|
    ensures |Step(c, s, msg).bundles| == |s.bundles| + 1
    ensures Step(c, s, msg).bundles[|s.bundles|].audioLen
         == if msg.SlotEnd? then |audio| else |AcceptedAfter(audio, msg)|
  {
    match msg
    case Samples(data) =>
      IngestSends(c, s, data);
      if |audio| + |data| <= NMAX {
        AppendedOk(c, s, data);
        AdvanceSendsAll(c, Appended(s, data));
      }
    case SlotEnd(_, _) =>
      FlushSends(c, s);
      AdvanceSendsAll(c, s);
    case SlotResetMark =>
  }

  /** A bundle points at everything received when it leaves: with the chunk that makes it
      due, or all of the slot if it leaves only at the slot's end. */
  lemma BundlePointsAtAll(c: Config, b0: seq<I16>, b1: seq<I16>, ms: seq<Msg>, msg: Msg)
    requires Sane(c) && Buffers(b0, b1)
    requires |Run(c, b0, b1, ms + [msg]).bundles| > |Run(c, b0, b1, ms).bundles|
    ensures
      var s, t := Run(c, b0, b1, ms), Run(c, b0, b1, ms + [msg]);
      && |t.bundles| == |s.bundles| + 1
      && t.bundles[|s.bundles|].audioLen == if msg.SlotEnd? then |Accepted(ms)| else |Accepted(ms + [msg])|
  {
    RunInv(c, b0, b1, ms);
    RunSnoc(c, b0, b1, ms, msg);
    StepSendsAll(c, Accepted(ms), Run(c, b0, b1, ms), msg);
  }

  /** In `s` a slot has just been completed, and `t` still has it, in a buffer that is not
      the one being filled and that holds what it held. */
  ghost predicate SlotKept(s: State, t: State) {
    && |s.slots| > 0 && t.slots == s.slots && s.fillIdx < 2 && |s.bufs| == |t.bufs| == 2
    && s.slots[|s.slots| - 1].buf == 1 - s.fillIdx == 1 - t.fillIdx
    && t.bufs[1 - s.fillIdx] == s.bufs[1 - s.fillIdx]
  }

  lemma SlotIsIdle(c: Config, b0: seq<I16>, b1: seq<I16>, ms: seq<Msg>, wavIdx: nat, total: nat)
    requires Sane(c) && Buffers(b0, b1)
    ensures
      var s := Run(c, b0, b1, ms + [SlotEnd(wavIdx, total)]);
      |s.slots| > 0 && s.slots[|s.slots| - 1].buf == 1 - s.fillIdx
  {
    SlotAndItsBundle(c, b0, b1, ms, wavIdx, total);
  }

  lemma IdleSlotKept(c: Config, b0: seq<I16>, b1: seq<I16>, ended: seq<Msg>, more: seq<Msg>)
    requires Sane(c) && Buffers(b0, b1) && NoSlotEnd(more)
    requires
      var s := Run(c, b0, b1, ended);
      |s.slots| > 0 && s.slots[|s.slots| - 1].buf == 1 - s.fillIdx
    ensures SlotKept(Run(c, b0, b1, ended), Run(c, b0, b1, ended + more))
  {
    IdleBufferKept(c, b0, b1, ended, more);
  }

  /** A completed slot's buffer is not written until the next SlotEnd, whatever
      chunks and resets come in between. */
  lemma SlotBufferUnwritten(c: Config, b0: seq<I16>, b1: seq<I16>, ms: seq<Msg>, wavIdx: nat, total: nat,
                            more: seq<Msg>)
    requires Sane(c) && Buffers(b0, b1) && NoSlotEnd(more)
    ensures
      var ended := ms + [SlotEnd(wavIdx, total)];
      SlotKept(Run(c, b0, b1, ended), Run(c, b0, b1, ended + more))
  {
    SlotIsIdle(c, b0, b1, ms, wavIdx, total);
    IdleSlotKept(c, b0, b1, ms + [SlotEnd(wavIdx, total)], more);
  }

  predicate OnlySamples(ms: seq<Msg>) {
    forall i :: 0 <= i < |ms| ==> ms[i].Samples?
  }

  lemma {:induction false} AcceptedGrows(ms: seq<Msg>, more: seq<Msg>)
    requires OnlySamples(more)
    ensures |Accepted(ms)| <= |Accepted(ms + more)| && Accepted(ms + more)[..|Accepted(ms)|] == Accepted(ms)
  {
    if more == [] {
      assert ms + more == ms;
    } else {
      assert (ms + more)[..|ms + more| - 1] == ms + more[..|more| - 1];
      AcceptedGrows(ms, more[..|more| - 1]);
    }
  }

  lemma AcceptedUnwritten(c: Config, b0: seq<I16>, b1: seq<I16>, ms: seq<Msg>, more: seq<Msg>, n: nat)
    requires Sane(c) && Buffers(b0, b1) && OnlySamples(more) && n <= |Accepted(ms)|
    ensures
      && Run(c, b0, b1, ms + more).fillIdx == Run(c, b0, b1, ms).fillIdx
      && SameStart(FillBuf(Run(c, b0, b1, ms)), FillBuf(Run(c, b0, b1, ms + more)), n)
  {
    SameFillIdx(c, b0, b1, ms, more);
    AcceptedGrows(ms, more);
    BufferHolds(c, b0, b1, ms);
    BufferHolds(c, b0, b1, ms + more);
    PrefixKept(FillBuf(Run(c, b0, b1, ms)), FillBuf(Run(c, b0, b1, ms + more)), Accepted(ms), Accepted(ms + more), n);
  }

  /** The prefix a sent bundle points at stays as it was while samples keep coming. */
  lemma BundlePrefixUnwritten(c: Config, b0: seq<I16>, b1: seq<I16>, ms: seq<Msg>, more: seq<Msg>)
    requires Sane(c) && Buffers(b0, b1) && OnlySamples(more) && Run(c, b0, b1, ms).cur.sent
    ensures
      var s, t := Run(c, b0, b1, ms), Run(c, b0, b1, ms + more);
      |s.bundles| > 0 &&
      var b := s.bundles[|s.bundles| - 1];
      && b.buf == s.fillIdx == t.fillIdx && SameStart(FillBuf(s), FillBuf(t), b.audioLen)
  {
    var n := SentLength(c, b0, b1, ms);
    AcceptedUnwritten(c, b0, b1, ms, more, n);
  }

  lemma SentLength(c: Config, b0: seq<I16>, b1: seq<I16>, ms: seq<Msg>) returns (n: nat)
    requires Sane(c) && Buffers(b0, b1) && Run(c, b0, b1, ms).cur.sent
    ensures
      var s := Run(c, b0, b1, ms);
      && n <= |Accepted(ms)| && |s.bundles| > 0
      && s.bundles[|s.bundles| - 1].audioLen == n && s.bundles[|s.bundles| - 1].buf == s.fillIdx
  {
    SentBundleIsAPrefix(c, b0, b1, ms);
    var s := Run(c, b0, b1, ms);
    n := s.bundles[|s.bundles| - 1].audioLen;
  }

  /** The first `n` samples of both are the same. */
  predicate SameStart(a: seq<I16>, b: seq<I16>, n: nat) {
    n <= |a| && n <= |b| && a[..n] == b[..n]
  }

  lemma PrefixKept<T>(s: seq<T>, t: seq<T>, a: seq<T>, a': seq<T>, n: nat)
    requires n <= |a| <= |s| && |a| <= |a'| <= |t| && a'[..|a|] == a
    requires s[..|a|] == a && t[..|a'|] == a'
    ensures t[..n] == s[..n]
  {
    forall i | 0 <= i < n ensures t[i] == s[i] {
      assert t[i] == t[..|a'|][i] == a'[..|a|][i] == s[..|a|][i];
    }
  }

  lemma {:induction false} SameFillIdx(c: Config, b0: seq<I16>, b1: seq<I16>, ms: seq<Msg>, more: seq<Msg>)
    requires Sane(c) && Buffers(b0, b1) && OnlySamples(more)
    ensures Run(c, b0, b1, ms + more).fillIdx == Run(c, b0, b1, ms).fillIdx
  {
    if more == [] {
      assert ms + more == ms;
    } else {
      var init := more[..|more| - 1];
      assert (ms + more)[..|ms + more| - 1] == ms + init;
      SameFillIdx(c, b0, b1, ms, init);
      QueuesGrow(c, Run(c, b0, b1, ms + init), more[|more| - 1]);
    }
  }

  /** After a reset it does not: the bundle is not retracted, and the very next sample
      overwrites the first one it points at. So the prefix is as it was sent only if
      that sample happens to be the same. */
  lemma ResetFreesThePrefix(c: Config, b0: seq<I16>, b1: seq<I16>, ms: seq<Msg>, x: I16)
    requires Sane(c) && Buffers(b0, b1) && Run(c, b0, b1, ms).cur.sent
    ensures
      var s, t := Run(c, b0, b1, ms), Run(c, b0, b1, ms + [SlotResetMark, Samples([x])]);
      && |s.bundles| > 0 && t.bundles == s.bundles && t.fillIdx == s.fillIdx
      && var b := s.bundles[|s.bundles| - 1];
      && b.buf == s.fillIdx && 0 < b.audioLen <= |Accepted(ms)|
      && |FillBuf(s)| == |FillBuf(t)| == NMAX
      && FillBuf(s)[0] == Accepted(ms)[0] && FillBuf(t)[0] == x
  {
    var a := ms + [SlotResetMark];
    assert a + [Samples([x])] == ms + [SlotResetMark, Samples([x])];
    SentBundleIsAPrefix(c, b0, b1, ms);
    BufferHolds(c, b0, b1, ms);
    RunSnoc(c, b0, b1, ms, SlotResetMark);
    OneSampleAfterReset(c, b0, b1, a, x);
    FirstOfPrefix(FillBuf(Run(c, b0, b1, ms)), Accepted(ms));
  }

  lemma FirstOfPrefix<T>(s: seq<T>, a: seq<T>)
    requires 0 < |a| <= |s| && s[..|a|] == a
    ensures s[0] == a[0]
  {
    assert s[0] == s[..|a|][0];
  }

  lemma OneSampleAfterReset(c: Config, b0: seq<I16>, b1: seq<I16>, ms: seq<Msg>, x: I16)
    requires Sane(c) && Buffers(b0, b1) && Accepted(ms) == []
    ensures
      var s, t := Run(c, b0, b1, ms), Run(c, b0, b1, ms + [Samples([x])]);
      t.bundles == s.bundles && t.fillIdx == s.fillIdx && |FillBuf(t)| == NMAX && FillBuf(t)[0] == x
  {
    RunSnoc(c, b0, b1, ms, Samples([x]));
    RunInv(c, b0, b1, ms);
    RunInv(c, b0, b1, ms + [Samples([x])]);
    IngestSends(c, Run(c, b0, b1, ms), [x]);
    BufferHolds(c, b0, b1, ms + [Samples([x])]);
    assert Accepted(ms + [Samples([x])]) == [x];
    FirstOfPrefix(FillBuf(Run(c, b0, b1, ms + [Samples([x])])), [x]);
  }

  /** A run that strands a bundle: one chunk long enough to send it, a reset, and the
      end of a slot. The first bundle is then not the first slot's. */
  lemma LateResetMispairs(c: Config, b0: seq<I16>, b1: seq<I16>, audio: seq<I16>)
    requires Sane(c) && Buffers(b0, b1) && |audio| == 960 + 1920 * c.emitPair
    ensures Orphans(c, b0, b1, [Samples(audio), SlotResetMark]) == 1
    ensures !FifoPaired(Run(c, b0, b1, [Samples(audio), SlotResetMark, SlotEnd(0, 0)]))
  {
    var one, two, three := [Samples(audio)], [Samples(audio), SlotResetMark], [Samples(audio), SlotResetMark, SlotEnd(0, 0)];
    assert three[..2] == two && two[..1] == one && one[..0] == [];
    assert [] + audio == audio;
    assert Accepted(one) == audio;
    ProgressIgnoresChunking(c, b0, b1, one);
    ResetCountsOne(c, b0, b1, one);
    assert one + [SlotResetMark] == two;
    FifoPairsExactly(c, b0, b1, three);
  }

  lemma ResetCountsOne(c: Config, b0: seq<I16>, b1: seq<I16>, ms: seq<Msg>)
    requires Sane(c) && Buffers(b0, b1) && Run(c, b0, b1, ms).cur.sent
    ensures Orphans(c, b0, b1, ms + [SlotResetMark]) == Orphans(c, b0, b1, ms) + 1
  {
    assert (ms + [SlotResetMark])[..|ms|] == ms;
  }
}

/** Which samples set the gain a slot is read at. The source describes the shift as
    locked "from the slot's first 12 000 samples"
    (embedded-poc/embedded-shared/src/stage1_inc.rs:1241-1242). The code locks it at
    the end of the first chunk that reaches sample 12 000, from everything received
    by then. */
module Stage1Gain {

  import opened Common
  import opened PairKernel
  import opened Stage1
  import opened Stage1Runs

  /** Samples in when the gain of the slot in progress was locked; 0 before that. */
  function LockLen(ms: seq<Msg>): (n: nat)
    ensures n <= |Accepted(ms)|
    ensures n > 0 <==> |Accepted(ms)| >= LOCK_AT
    ensures n > 0 ==> n >= LOCK_AT
  {
    if ms == [] then 0
    else
      var before, now := |Accepted(ms[..|ms| - 1])|, |Accepted(ms)|;
      if !ms[|ms| - 1].Samples? then 0
      else if before < LOCK_AT <= now then now
      else LockLen(ms[..|ms| - 1])
  }

  function ShiftOf(peak: nat): (r: nat)
    ensures r <= 8
  {
    ShiftFrom(peak, 0)
  }

  lemma AdvanceKeepsShift(c: Config, s: State)
    requires Ok(c, s)
    ensures Advance(c, s).cur.shift
            == if !s.cur.locked && s.cur.fill >= LOCK_AT then ShiftOf(s.cur.peak) else s.cur.shift
  {
    LoopKeepsShift(c, Lock(c, s));
  }

  lemma {:induction false} LoopKeepsShift(c: Config, s: State)
    requires Ok(c, s)
    ensures PairLoop(c, s).cur.shift == s.cur.shift
    decreases Limit(c) - s.cur.nextPair
  {
    if PairReady(c, s) {
      LoopKeepsShift(c, ComputePair(c, s));
    }
  }

  /** The shift in force is the one the peak of those samples calls for. */
  lemma {:induction false} ShiftIsSetAtLock(c: Config, b0: seq<I16>, b1: seq<I16>, ms: seq<Msg>)
    requires Sane(c) && Buffers(b0, b1) && LockLen(ms) > 0
    ensures Run(c, b0, b1, ms).cur.shift == ShiftOf(PeakOver(1, Accepted(ms)[..LockLen(ms)]))
  {
    var init, msg := ms[..|ms| - 1], ms[|ms| - 1];
    var s, audio := Run(c, b0, b1, init), Accepted(init);
    RunInv(c, b0, b1, init);
    var data := msg.data;
    if |audio| + |data| <= NMAX {
      AppendKeeps(c, audio, s, data);
      AdvanceKeepsShift(c, Appended(s, data));
      if |audio| < LOCK_AT {
        assert Accepted(ms)[..LockLen(ms)] == audio + data;
      } else {
        ShiftIsSetAtLock(c, b0, b1, init);
        assert Accepted(ms)[..LockLen(ms)] == audio[..LockLen(init)];
      }
    } else {
      ShiftIsSetAtLock(c, b0, b1, init);
    }
  }

  // ---- The shift as a function of the peak ----------------------------------------------

  lemma {:induction false} Pow2Grows(i: nat, j: nat)
    requires i <= j
    ensures Pow2(i) <= Pow2(j)
  {
    if i < j {
      Pow2Grows(i, j - 1);
    }
  }

  lemma ProductGrows(x: nat, y: nat, p: nat, q: nat)
    requires x <= y && p <= q
    ensures x * p <= y * q
  {
    assert y * q == x * p + (y - x) * p + y * (q - p);
    assert (y - x) * p >= 0 && y * (q - p) >= 0;
  }

  /** `p` is the magnitude of `x`. */
  predicate IsMagnitude(p: int, x: int) {
    p == x || p == -x
  }

  /** The peak is the largest magnitude received, or 1 if that is larger. */
  lemma {:induction false} PeakIsLargest(audio: seq<I16>)
    ensures forall i :: 0 <= i < |audio| ==> 0 <= audio[i] + PeakOver(1, audio) && audio[i] <= PeakOver(1, audio)
    ensures PeakOver(1, audio) >= 1
    ensures PeakOver(1, audio) > 1 ==> exists j :: 0 <= j < |audio| && IsMagnitude(PeakOver(1, audio), audio[j])
  {
    if audio != [] {
      var n := |audio| - 1;
      PeakIsLargest(audio[..n]);
      if PeakOver(1, audio) != PeakOver(1, audio[..n]) {
        assert IsMagnitude(PeakOver(1, audio), audio[n]);
      } else if PeakOver(1, audio) > 1 {
        var j :| 0 <= j < n && IsMagnitude(PeakOver(1, audio[..n]), audio[..n][j]);
        assert IsMagnitude(PeakOver(1, audio), audio[j]);
      }
    }
  }

  /** The shift lifts that peak to 7680 or is 8, and no smaller one does. */
  lemma ShiftMeets(peak: nat, i: nat)
    ensures peak * Pow2(ShiftOf(peak)) >= 7_680 || ShiftOf(peak) == 8
    ensures i < ShiftOf(peak) ==> peak * Pow2(i) < 7_680
  {
    ShiftIsLeast(peak, 0, i);
  }

  /** The peak shifted left `i` times is still below the target. */
  predicate Short(peak: nat, i: nat) {
    peak * Pow2(i) < TARGET_PEAK
  }

  lemma ShortBelow(x: nat, y: nat, i: nat, j: nat)
    requires x <= y && i <= j && Short(y, j)
    ensures Short(x, i)
  {
    Pow2Grows(i, j);
    ProductGrows(x, y, Pow2(i), Pow2(j));
  }

  /** The search returns the least shift that lifts the peak to the target, or 8. */
  lemma {:induction false} ShiftIsLeast(peak: nat, from: nat, i: nat)
    requires from <= 8
    ensures from <= ShiftFrom(peak, from)
    ensures from <= i < ShiftFrom(peak, from) ==> Short(peak, i)
    ensures ShiftFrom(peak, from) == 8 || !Short(peak, ShiftFrom(peak, from))
    decreases 8 - from
  {
    if peak * Pow2(from) < TARGET_PEAK && from < 8 {
      ShiftIsLeast(peak, from + 1, i);
    }
  }

  function Max(a: nat, b: nat): nat {
    if a < b then b else a
  }

  /** A larger peak never gets a larger shift. */
  lemma ShiftShrinks(p: nat, q: nat)
    requires p <= q
    ensures ShiftOf(q) <= ShiftOf(p)
  {
    var r := ShiftOf(p);
    ShiftIsLeast(p, 0, 0);
    ShiftIsLeast(q, 0, r);
    if r < ShiftOf(q) {
      ShortBelow(p, q, r, r);
    }
  }

  lemma ShiftAbove(q: nat, i: nat)
    requires i < 8
    ensures i < ShiftOf(q) <==> Short(q, i)
  {
    ShiftIsLeast(q, 0, i);
    if Short(q, i) && ShiftOf(q) <= i {
      ShortBelow(q, q, ShiftOf(q), i);
    }
  }

  /** Raising a peak `p` to `q` leaves its shift alone exactly when `q` is still
      below the target one step down. */
  lemma ShiftOfLarger(p: nat, q: nat)
    ensures ShiftOf(Max(p, q)) == ShiftOf(p) <==> ShiftOf(p) == 0 || Short(q, ShiftOf(p) - 1)
  {
    var r := ShiftOf(p);
    if r > 0 {
      ShiftAbove(q, r - 1);
      if q <= p {
        ShiftShrinks(q, p);
      } else {
        ShiftShrinks(p, q);
      }
    } else {
      ShiftShrinks(p, Max(p, q));
    }
  }

  lemma {:induction false} PeakOverMax(p: nat, a: seq<I16>)
    ensures PeakOver(p, a) == Max(p, PeakOver(0, a))
  {
    if a != [] {
      PeakOverMax(p, a[..|a| - 1]);
    }
  }

  /** So the shift is that of the first 12 000 samples if and only if what arrived
      between sample 12 000 and the end of that chunk was not loud enough to lower
      it. Chunks that end on sample 12 000, as the 1200-sample ticks do, always
      qualify. */
  lemma FirstSecondSetsTheGain(c: Config, b0: seq<I16>, b1: seq<I16>, ms: seq<Msg>)
    requires Sane(c) && Buffers(b0, b1) && LockLen(ms) > 0
    ensures
      var audio := Accepted(ms);
      var first := ShiftOf(PeakOver(1, audio[..LOCK_AT]));
      var late := PeakOver(0, audio[LOCK_AT..LockLen(ms)]);
      && (Run(c, b0, b1, ms).cur.shift == first <==> first == 0 || Short(late, first - 1))
      && (LockLen(ms) == LOCK_AT ==> Run(c, b0, b1, ms).cur.shift == first)
  {
    var audio, n := Accepted(ms), LockLen(ms);
    ShiftIsSetAtLock(c, b0, b1, ms);
    var head, late := audio[..LOCK_AT], audio[LOCK_AT..n];
    assert audio[..n] == head + late;
    PeakAppend(1, head, late);
    PeakOverMax(PeakOver(1, head), late);
    ShiftOfLarger(PeakOver(1, head), PeakOver(0, late));
    if n == LOCK_AT {
      assert audio[..n] == head;
    }
  }

  /** The same audio, two chunkings, two gains: silence for 12 000 samples and one
      loud sample after it, in one chunk and in two. */
  lemma GainDependsOnChunking(c: Config, b0: seq<I16>, b1: seq<I16>)
    requires Sane(c) && Buffers(b0, b1)
    ensures
      var quiet: seq<I16> := seq(LOCK_AT, _ => 0);
      var one, two := [Samples(quiet + [0x4000])], [Samples(quiet), Samples([0x4000])];
      && Accepted(one) == Accepted(two)
      && Run(c, b0, b1, one).cur.shift == 0
      && Run(c, b0, b1, two).cur.shift == 8
  {
    var quiet: seq<I16> := seq(LOCK_AT, _ => 0);
    AcceptedTwoWays(quiet, [0x4000]);
    SilentPeak(LOCK_AT);
    LoudPeak(quiet, 0x4000);
    QuietAndLoud();
    OneChunkGain(c, b0, b1, quiet + [0x4000]);
    TwoChunkGain(c, b0, b1, quiet, [0x4000]);
  }

  lemma LoudPeak(quiet: seq<I16>, x: I16)
    requires PeakOver(1, quiet) == 1 && x >= 1
    ensures PeakOver(1, quiet + [x]) == x
  {
    assert (quiet + [x])[..|quiet|] == quiet;
  }

  lemma AcceptedOne(a: seq<I16>)
    requires |a| <= NMAX
    ensures Accepted([Samples(a)]) == a
    ensures |a| >= LOCK_AT ==> LockLen([Samples(a)]) == |a|
  {
    assert [Samples(a)][..0] == [];
    assert [] + a == a;
  }

  lemma AcceptedTwoWays(a: seq<I16>, b: seq<I16>)
    requires |a| + |b| <= NMAX && |a| >= LOCK_AT
    ensures Accepted([Samples(a + b)]) == a + b
    ensures Accepted([Samples(a), Samples(b)]) == a + b
    ensures LockLen([Samples(a), Samples(b)]) == |a|
  {
    AcceptedOne(a + b);
    AcceptedOne(a);
    assert [Samples(a), Samples(b)][..1] == [Samples(a)];
  }

  lemma OneChunkGain(c: Config, b0: seq<I16>, b1: seq<I16>, a: seq<I16>)
    requires Sane(c) && Buffers(b0, b1) && LOCK_AT <= |a| <= NMAX
    ensures Run(c, b0, b1, [Samples(a)]).cur.shift == ShiftOf(PeakOver(1, a))
  {
    AcceptedOne(a);
    ShiftIsSetAtLock(c, b0, b1, [Samples(a)]);
    assert a[..|a|] == a;
  }

  lemma TwoChunkGain(c: Config, b0: seq<I16>, b1: seq<I16>, a: seq<I16>, b: seq<I16>)
    requires Sane(c) && Buffers(b0, b1) && LOCK_AT <= |a| && |a| + |b| <= NMAX
    ensures Run(c, b0, b1, [Samples(a), Samples(b)]).cur.shift == ShiftOf(PeakOver(1, a))
  {
    AcceptedTwoWays(a, b);
    ShiftIsSetAtLock(c, b0, b1, [Samples(a), Samples(b)]);
    assert (a + b)[..|a|] == a;
  }

  lemma QuietAndLoud()
    ensures ShiftOf(1) == 8 && ShiftOf(0x4000) == 0
  {
    ShiftIsLeast(1, 0, 0);
    assert Pow2(0) == 1 && Pow2(1) == 2 && Pow2(2) == 4 && Pow2(3) == 8;
    Pow2Small(7);
    var r := ShiftOf(1);
    if r < 8 {
      Pow2Small(r);
    }
  }

  lemma {:induction false} SilentPeak(n: nat)
    ensures PeakOver(1, seq(n, _ => 0)) == 1
  {
    if n > 0 {
      var s: seq<I16> := seq(n, _ => 0);
      assert s[..n - 1] == seq(n - 1, _ => 0);
      SilentPeak(n - 1);
    }
  }
}

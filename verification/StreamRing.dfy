/** The capture stream of the C ABI (mfsk-ffi/src/lib.rs, `StreamInner` and the
    `mfsk_stream_*` calls) for a 12 kHz source: a ring of one slot that refines the
    unbounded history of everything ever pushed.

    `Stream` is that history with a read position; the class is the ring. UTC seconds
    are reals. */
module StreamRing {

  import opened Common

  const RATE: real := 12000.0

  /** Everything pushed, how far it has been consumed, and the clock. `dropped` is not
      in the source: how many samples left without being taken. */
  datatype Stream = Stream(slot: nat, history: seq<I16>, taken: nat, dropped: nat,
                           epochUtc: Option<real>, epochAt: nat)

  predicate Ok(s: Stream) {
    s.taken <= |s.history| <= s.taken + s.slot && s.epochAt <= |s.history| && s.dropped <= s.taken
  }

  /** What the ring holds. */
  function Buffered(s: Stream): seq<I16>
    requires Ok(s)
  {
    s.history[s.taken..]
  }

  function Open(slot: nat): Stream {
    Stream(slot, [], 0, 0, None, 0)
  }

  /** UTC of the sample at absolute index `i`. */
  function UtcOf(s: Stream, i: nat): real {
    match s.epochUtc
    case Some(t0) => t0 + (i as real - s.epochAt as real) / RATE
    case None => i as real / RATE
  }

  /** The newest slot's worth survives a push. */
  function Push(s: Stream, src: seq<I16>): (t: Stream)
    requires Ok(s)
    ensures Ok(t)
  {
    var n := |s.history| + |src|;
    var over := if n - s.taken > s.slot then n - s.taken - s.slot else 0;
    s.(history := s.history + src, taken := s.taken + over, dropped := s.dropped + over)
  }

  function SetEpoch(s: Stream, utc: real): (t: Stream)
    requires Ok(s)
    ensures Ok(t)
  {
    s.(epochUtc := Some(utc), epochAt := |s.history|)
  }

  predicate SlotReady(s: Stream)
    requires Ok(s)
  {
    |Buffered(s)| >= s.slot
  }

  /** One slot handed over, by copy or to the decoder. */
  function Take(s: Stream): (t: Stream)
    requires Ok(s) && SlotReady(s)
    ensures Ok(t)
  {
    s.(taken := s.taken + s.slot)
  }

  function Clear(s: Stream): (t: Stream)
    requires Ok(s)
    ensures Ok(t)
  {
    s.(taken := |s.history|, dropped := s.dropped + |Buffered(s)|)
  }

  // ---- The ring, in place -----------------------------------------------------------

  class StreamInner {
    const slotSamples: nat
    var ring: seq<I16>
    var pushed: nat
    var taken: nat
    var epochUtc: Option<real>
    var epochAt: nat
    ghost var history: seq<I16>
    ghost var dropped: nat

    ghost function Abs(): Stream
      reads this
    {
      Stream(slotSamples, history, taken, dropped, epochUtc, epochAt)
    }

    /** The ring is the unread end of the history, and the counters say so. */
    ghost predicate Valid()
      reads this
    {
      Ok(Abs()) && pushed == |history| && taken + |ring| == pushed && ring == Buffered(Abs())
    }

    constructor (slot: nat)
      ensures Valid() && Abs() == Open(slot)
    {
      slotSamples := slot;
      ring, pushed, taken, epochUtc, epochAt := [], 0, 0, None, 0;
      history, dropped := [], 0;
    }

    /** `ring_push`. */
    method RingPush(src: seq<I16>)
      requires Valid()
      modifies this
      ensures Valid() && Abs() == Push(old(Abs()), src)
    {
      ring := ring + src;
      pushed := pushed + |src|;
      history := history + src;
      assert ring == history[taken..];
      if |ring| > slotSamples {
        var dropN := |ring| - slotSamples;
        ring := ring[dropN..];
        taken := taken + dropN;
        dropped := dropped + dropN;
      }
    }

    /** `mfsk_stream_set_epoch`. */
    method SetEpochUtc(utc: real)
      requires Valid()
      modifies this
      ensures Valid() && Abs() == SetEpoch(old(Abs()), utc)
    {
      epochUtc, epochAt := Some(utc), pushed;
    }

    /** `mfsk_stream_take_slot_i16`: nothing happens unless a whole slot is buffered and
        fits the caller's buffer. */
    method TakeSlotI16(out: array?<I16>) returns (n: nat, startUtc: real)
      requires Valid()
      modifies this, out
      ensures Valid() && history == old(history)
      ensures
        var s := old(Abs());
        if out != null && SlotReady(s) && s.slot <= out.Length
        then n == s.slot && Abs() == Take(s) && startUtc == UtcOf(s, s.taken)
             && out[..n] == s.history[s.taken..s.taken + s.slot] && out[n..] == old(out[..])[n..]
        else n == 0 && Abs() == s && (out != null ==> out[..] == old(out[..]))
    {
      n, startUtc := 0, 0.0;
      if |ring| < slotSamples || out == null || out.Length < slotSamples { return; }
      n := slotSamples;
      startUtc := UtcAt(taken);
      forall i | 0 <= i < n {
        out[i] := ring[i];
      }
      ring := ring[n..];
      taken := taken + n;
    }

    /** `utc_of`. */
    function UtcAt(i: nat): (utc: real)
      reads this
      ensures utc == UtcOf(Abs(), i)
    {
      match epochUtc
      case Some(t0) => t0 + (i as real - epochAt as real) / RATE
      case None => i as real / RATE
    }

    /** The stream half of `mfsk_session_decode_stream`: the slot leaves the ring before
        the decoder sees it, whatever the decoder makes of it. */
    method DrainForDecode(paramsOk: bool) returns (slot: Option<seq<I16>>, startUtc: real)
      requires Valid()
      modifies this
      ensures Valid()
      ensures
        var s := old(Abs());
        if SlotReady(s) && paramsOk
        then slot == Some(s.history[s.taken..s.taken + s.slot]) && Abs() == Take(s) && startUtc == UtcOf(s, s.taken)
        else slot == None && Abs() == s
    {
      slot, startUtc := None, 0.0;
      if |ring| < slotSamples || !paramsOk { return; }
      startUtc := UtcAt(taken);
      assert ring[..slotSamples] == history[taken..taken + slotSamples];
      slot := Some(ring[..slotSamples]);
      ring := ring[slotSamples..];
      taken := taken + slotSamples;
    }

    /** `mfsk_stream_clear`. */
    method ClearAll()
      requires Valid()
      modifies this
      ensures Valid() && Abs() == Clear(old(Abs()))
    {
      dropped := dropped + |ring|;
      taken := taken + |ring|;
      ring := [];
    }
  }

  // ---- Chunking ----------------------------------------------------------------------

  /** How the samples are cut into pushes does not matter. */
  lemma PushSplits(s: Stream, a: seq<I16>, b: seq<I16>)
    requires Ok(s)
    ensures Push(Push(s, a), b) == Push(s, a + b)
  {
    assert (s.history + a) + b == s.history + (a + b);
  }

  function PushAll(s: Stream, chunks: seq<seq<I16>>): (t: Stream)
    requires Ok(s)
    ensures Ok(t)
  {
    if chunks == [] then s else Push(PushAll(s, chunks[..|chunks| - 1]), chunks[|chunks| - 1])
  }

  lemma {:induction false} PushAllIsOnePush(s: Stream, chunks: seq<seq<I16>>)
    requires Ok(s)
    ensures PushAll(s, chunks) == Push(s, Flatten(chunks))
  {
    if chunks == [] {
      assert s.history + [] == s.history;
    } else {
      var n := |chunks| - 1;
      PushAllIsOnePush(s, chunks[..n]);
      PushSplits(s, Flatten(chunks[..n]), chunks[n]);
    }
  }

  // ---- Runs ----------------------------------------------------------------------------

  datatype Op = OpPush(src: seq<I16>) | OpEpoch(utc: real) | OpTake | OpClear

  /** A slot that was handed over: where it started, what it held, when it began. */
  datatype Handed = Handed(start: nat, samples: seq<I16>, utc: real)

  datatype Log = Log(stream: Stream, handed: seq<Handed>)

  ghost predicate Fine(l: Log) {
    Ok(l.stream)
  }

  /** A take that finds no slot does nothing. */
  function Step(l: Log, op: Op): (r: Log)
    requires Fine(l)
    ensures Fine(r)
  {
    match op
    case OpPush(src) => l.(stream := Push(l.stream, src))
    case OpEpoch(utc) => l.(stream := SetEpoch(l.stream, utc))
    case OpClear => l.(stream := Clear(l.stream))
    case OpTake =>
      var s := l.stream;
      if SlotReady(s)
      then Log(Take(s), l.handed + [Handed(s.taken, s.history[s.taken..s.taken + s.slot], UtcOf(s, s.taken))])
      else l
  }

  function Run(slot: nat, ops: seq<Op>): (l: Log)
    ensures Fine(l)
  {
    if ops == [] then Log(Open(slot), []) else Step(Run(slot, ops[..|ops| - 1]), ops[|ops| - 1])
  }

  /** Everything ever pushed. */
  function Pushed(ops: seq<Op>): seq<I16> {
    if ops == [] then []
    else
      var before := Pushed(ops[..|ops| - 1]);
      if ops[|ops| - 1].OpPush? then before + ops[|ops| - 1].src else before
  }

  /** The handed slots are windows of the history behind the read position... */
  ghost predicate Windows(l: Log)
    requires Fine(l)
  {
    forall i :: 0 <= i < |l.handed| ==>
      && l.handed[i].start + l.stream.slot <= l.stream.taken
      && l.handed[i].samples == l.stream.history[l.handed[i].start..l.handed[i].start + l.stream.slot]
  }

  /** ...in order and disjoint. */
  ghost predicate InOrder(l: Log)
  {
    forall i, j :: 0 <= i < j < |l.handed| ==> l.handed[i].start + l.stream.slot <= l.handed[j].start
  }

  lemma WindowsLast(l: Log, t: Stream, more: seq<I16>)
    requires Fine(l) && Windows(l) && Ok(t)
    requires t.slot == l.stream.slot && t.taken >= l.stream.taken && t.history == l.stream.history + more
    ensures Windows(Log(t, l.handed))
  {
    forall i | 0 <= i < |l.handed|
      ensures t.history[l.handed[i].start..l.handed[i].start + t.slot] == l.handed[i].samples
    {
      WindowKept(l.stream.history, more, l.handed[i].start, t.slot);
    }
  }

  lemma StepWindows(l: Log, op: Op)
    requires Fine(l) && Windows(l)
    ensures Windows(Step(l, op))
  {
    assert l.stream.history + [] == l.stream.history;
    match op
    case OpPush(src) => WindowsLast(l, Push(l.stream, src), src);
    case OpEpoch(utc) => WindowsLast(l, SetEpoch(l.stream, utc), []);
    case OpClear => WindowsLast(l, Clear(l.stream), []);
    case OpTake => if SlotReady(l.stream) { WindowsLast(l, Take(l.stream), []); }
  }

  lemma WindowKept<T>(h: seq<T>, more: seq<T>, start: nat, n: nat)
    requires start + n <= |h|
    ensures (h + more)[start..start + n] == h[start..start + n]
  {
  }

  /** On every run: the history is exactly what was pushed; what is buffered is its
      unread end, at most one slot; the slots handed over are ordered disjoint windows
      of it. */
  lemma {:induction false} RingRefinesHistory(slot: nat, ops: seq<Op>)
    ensures
      var l := Run(slot, ops);
      && l.stream.slot == slot
      && l.stream.history == Pushed(ops)
      && l.stream.taken + |Buffered(l.stream)| == |Pushed(ops)|
      && |Buffered(l.stream)| <= slot
      && Windows(l) && InOrder(l)
  {
    if ops != [] {
      RingRefinesHistory(slot, ops[..|ops| - 1]);
      StepWindows(Run(slot, ops[..|ops| - 1]), ops[|ops| - 1]);
    }
  }

  /** `k` slots' worth of samples: `k * slot`, by addition. */
  function Slots(k: nat, slot: nat): nat {
    if k == 0 then 0 else Slots(k - 1, slot) + slot
  }

  lemma {:induction false} SlotsIsProduct(k: nat, slot: nat)
    ensures Slots(k, slot) == k * slot
  {
    if k > 0 {
      SlotsIsProduct(k - 1, slot);
      assert k * slot == (k - 1) * slot + slot;
    }
  }

  lemma {:induction false} TakenOrDropped(slot: nat, ops: seq<Op>)
    ensures
      var l := Run(slot, ops);
      l.stream.slot == slot && l.stream.taken == Slots(|l.handed|, slot) + l.stream.dropped
  {
    if ops != [] {
      TakenOrDropped(slot, ops[..|ops| - 1]);
    }
  }

  /** Every sample is in exactly one place: a slot handed over, dropped, or buffered. */
  lemma SamplesConserved(slot: nat, ops: seq<Op>)
    ensures
      var l := Run(slot, ops);
      |Pushed(ops)| == |l.handed| * slot + l.stream.dropped + |Buffered(l.stream)|
  {
    RingRefinesHistory(slot, ops);
    TakenOrDropped(slot, ops);
    SlotsIsProduct(|Run(slot, ops).handed|, slot);
  }

  /** After a clear nothing is buffered, so no slot is ready until a slot's worth has been
      pushed again; what was buffered counts as dropped, and the clock stays. */
  lemma ClearEmpties(s: Stream, src: seq<I16>)
    requires Ok(s)
    ensures
      var t := Clear(s);
      && Buffered(t) == [] && (s.slot > 0 ==> !SlotReady(t))
      && t.history == s.history && t.slot == s.slot && t.dropped == s.dropped + |Buffered(s)|
      && (forall i: nat :: UtcOf(t, i) == UtcOf(s, i))
      && (|src| <= s.slot ==> Buffered(Push(t, src)) == src)
      && (SlotReady(Push(t, src)) <==> |src| >= s.slot)
  {
  }

  /** A slot taken is the oldest `slot` samples buffered; what is left is the rest. */
  lemma TakeTakesTheOldest(s: Stream)
    requires Ok(s) && SlotReady(s)
    ensures s.history[s.taken..s.taken + s.slot] == Buffered(s)[..s.slot]
    ensures Buffered(Take(s)) == Buffered(s)[s.slot..]
  {
  }

  /** A push keeps the newest of what was buffered and pushed, a slot of it at most. */
  lemma PushKeepsTheNewest(s: Stream, src: seq<I16>)
    requires Ok(s)
    ensures
      var all, kept := Buffered(s) + src, Buffered(Push(s, src));
      if |all| <= s.slot then kept == all else kept == all[|all| - s.slot..]
  {
    var t := Push(s, src);
    assert t.history == s.history[..s.taken] + (Buffered(s) + src);
  }

  // ---- The clock -----------------------------------------------------------------------

  predicate NoEpoch(ops: seq<Op>) {
    forall i :: 0 <= i < |ops| ==> !ops[i].OpEpoch?
  }

  /** While the epoch is not set again, every slot handed over is dated by the clock in
      force. */
  lemma {:induction false} DatedByOneClock(slot: nat, ops: seq<Op>, more: seq<Op>)
    requires NoEpoch(more)
    ensures
      var l, r := Run(slot, ops), Run(slot, ops + more);
      && r.stream.epochUtc == l.stream.epochUtc && r.stream.epochAt == l.stream.epochAt
      && |l.handed| <= |r.handed|
      && (forall i :: |l.handed| <= i < |r.handed| ==> r.handed[i].utc == UtcOf(l.stream, r.handed[i].start))
  {
    if more == [] {
      assert ops + more == ops;
    } else {
      var init := more[..|more| - 1];
      assert (ops + more)[..|ops + more| - 1] == ops + init;
      DatedByOneClock(slot, ops, init);
    }
  }

  /** So two slots taken with no epoch change in between start as far apart as the
      samples between them say: one slot each, plus whatever was dropped. */
  lemma SlotsAreDatedApart(slot: nat, ops: seq<Op>, more: seq<Op>, i: nat)
    requires NoEpoch(more) && |Run(slot, ops).handed| <= i < |Run(slot, ops + more).handed| - 1
    ensures
      var h := Run(slot, ops + more).handed;
      && h[i].start + slot <= h[i + 1].start
      && h[i + 1].utc - h[i].utc == (slot as real + (h[i + 1].start - h[i].start - slot) as real) / 12_000.0
  {
    DatedByOneClock(slot, ops, more);
    RingRefinesHistory(slot, ops + more);
    var h := Run(slot, ops + more).handed;
    UtcDifference(Run(slot, ops).stream, h[i].start, h[i + 1].start);
  }

  lemma UtcDifference(s: Stream, a: nat, b: nat)
    requires a <= b
    ensures UtcOf(s, b) - UtcOf(s, a) == (b - a) as real / RATE
  {
    assert b as real == a as real + (b - a) as real;
  }

  /** Samples dropped before slot `i` was handed over. */
  function DroppedBefore(slot: nat, ops: seq<Op>, i: nat): nat
    requires i < |Run(slot, ops).handed|
  {
    var init := ops[..|ops| - 1];
    if i < |Run(slot, init).handed| then DroppedBefore(slot, init, i) else Run(slot, init).stream.dropped
  }

  lemma StepHands(l: Log, op: Op, i: nat)
    requires Fine(l) && i < |Step(l, op).handed|
    ensures i < |l.handed| ==> Step(l, op).handed[i] == l.handed[i]
    ensures i >= |l.handed| ==> i == |l.handed| && Step(l, op).handed[i].start == l.stream.taken
  {
  }

  lemma {:induction false} StartOf(slot: nat, ops: seq<Op>, i: nat)
    requires i < |Run(slot, ops).handed|
    ensures Run(slot, ops).handed[i].start == Slots(i, slot) + DroppedBefore(slot, ops, i)
  {
    var init := ops[..|ops| - 1];
    StepHands(Run(slot, init), ops[|ops| - 1], i);
    if i < |Run(slot, init).handed| {
      StartOf(slot, init, i);
    } else {
      TakenOrDropped(slot, init);
    }
  }

  /** What lies between two handed slots was dropped, every sample of it. */
  lemma GapsAreDrops(slot: nat, ops: seq<Op>, i: nat)
    requires i < |Run(slot, ops).handed| - 1
    ensures
      var h := Run(slot, ops).handed;
      h[i + 1].start - (h[i].start + slot) == DroppedBefore(slot, ops, i + 1) - DroppedBefore(slot, ops, i) >= 0
  {
    StartOf(slot, ops, i);
    StartOf(slot, ops, i + 1);
    RingRefinesHistory(slot, ops);
  }

  /** Setting the epoch is documented to re-anchor the grid "rather than shifting what is
      already buffered". It dates the next sample as asked, and moves the date of every
      sample already buffered by the clock's correction; they keep their dates if and
      only if the new clock agrees with the old one about the next sample. */
  lemma EpochRedatesTheBuffer(s: Stream, utc: real, i: nat)
    requires Ok(s) && s.taken <= i < |s.history|
    ensures
      var t := SetEpoch(s, utc);
      && UtcOf(t, |t.history|) == utc
      && UtcOf(t, i) - UtcOf(s, i) == utc - UtcOf(s, |s.history|)
      && (UtcOf(t, i) == UtcOf(s, i) <==> utc == UtcOf(s, |s.history|))
  {
    UtcDifference(s, i, |s.history|);
    UtcDifference(SetEpoch(s, utc), i, |s.history|);
  }

  /** A stream with one sample buffered at second 0, told that the next one is at second
      100: the buffered sample is now dated just before 100. */
  lemma BufferedSampleJumps(slot: nat)
    requires slot > 0
    ensures
      var s := Push(Open(slot), [7]);
      Buffered(s) == [7] && UtcOf(s, 0) == 0.0 && UtcOf(SetEpoch(s, 100.0), 0) == 100.0 - 1.0 / 12_000.0
  {
  }
}

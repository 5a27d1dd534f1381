/** Stage 3 across two cores: both pull candidates from one slot array through
    a shared `fetch_add` counter (embedded-poc/embedded-shared/src/dual_core.rs,
    `stage3_split` and `drain_stage3_queue`).

    `Split` says what one call does in terms of who claimed what; the state
    machine below it lets the two claim loops interleave at every memory
    operation, with an arbitrary answer from `stop.reached()` at every poll.
    `RunIsSplit` and `SplitIsReachable` show that the two describe the same
    outcomes. */
module WorkSteal {
  import opened Common

  /** What `stage3_split` hands back. */
  datatype Stage3Split<C, R> = Stage3Split(results: seq<R>, failed: seq<C>, unclaimed: seq<C>)

  /** One core's share of a drain. */
  datatype Stage3Out<C, R> = Stage3Out(results: seq<R>, failed: seq<C>)

  // ---- The outcome as a function of the claim order ------------------------

  /** The candidates core `c` claimed, in claim order, when the k-th claim was
      made by `owners[k]`. */
  function Share<C>(p2: seq<C>, owners: seq<Core>, c: Core): (share: seq<C>)
    requires |owners| <= |p2|
  {
    if owners == [] then []
    else
      var n := |owners| - 1;
      Share(p2, owners[..n], c) + (if owners[n] == c then [p2[n]] else [])
  }

  /** A share run through stage 3 one candidate at a time. */
  function Drain<C, R>(decode: C -> seq<R>, share: seq<C>): Stage3Out<C, R> {
    if share == [] then Stage3Out([], [])
    else
      var n := |share| - 1;
      var out := Drain(decode, share[..n]);
      var rows := decode(share[n]);
      if rows == [] then out.(failed := out.failed + [share[n]])
      else out.(results := out.results + rows)
  }

  /** `stage3_split` when the claims were made by `owners`, in that order. */
  function Split<C, R>(p2: seq<C>, decode: C -> seq<R>, owners: seq<Core>): Stage3Split<C, R>
    requires |owners| <= |p2|
  {
    var main := Drain(decode, Share(p2, owners, Main));
    var worker := Drain(decode, Share(p2, owners, Worker));
    Stage3Split(main.results + worker.results, main.failed + worker.failed, p2[|owners|..])
  }

  // ---- What an outcome promises -------------------------------------------

  /** The candidates of `cs` that decode to nothing. */
  function Failing<C, R>(decode: C -> seq<R>, cs: seq<C>): seq<C> {
    Drain(decode, cs).failed
  }

  /** The rows decoded from `cs`, in order. */
  function Rows<C, R>(decode: C -> seq<R>, cs: seq<C>): seq<R> {
    Drain(decode, cs).results
  }

  /** The first `k` candidates were attempted and nothing else was: the rows
      and the failures are exactly theirs, and the rest comes back in order. */
  ghost predicate Attempted<C, R>(p2: seq<C>, decode: C -> seq<R>, k: nat, out: Stage3Split<C, R>) {
    && k <= |p2|
    && out.unclaimed == p2[k..]
    && multiset(out.failed) == multiset(Failing(decode, p2[..k]))
    && multiset(out.results) == multiset(Rows(decode, p2[..k]))
  }

  lemma {:induction false} DrainAppend<C, R>(decode: C -> seq<R>, a: seq<C>, b: seq<C>)
    ensures Drain(decode, a + b).results == Drain(decode, a).results + Drain(decode, b).results
    ensures Drain(decode, a + b).failed == Drain(decode, a).failed + Drain(decode, b).failed
  {
    if b == [] {
      assert a + b == a;
    } else {
      assert (a + b)[..|a + b| - 1] == a + b[..|b| - 1];
      DrainAppend(decode, a, b[..|b| - 1]);
    }
  }

  lemma DrainSnoc<C, R>(decode: C -> seq<R>, a: seq<C>, c: C)
    ensures Drain(decode, a + [c]).results == Drain(decode, a).results + decode(c)
    ensures Drain(decode, a + [c]).failed == Drain(decode, a).failed + (if decode(c) == [] then [c] else [])
  {
    assert (a + [c])[..|a|] == a;
  }

  lemma ShareGrows<C>(p2: seq<C>, owners: seq<Core>, who: Core, c: Core)
    requires |owners| < |p2|
    ensures Share(p2, owners + [who], c) == Share(p2, owners, c) + (if who == c then [p2[|owners|]] else [])
  {
    assert (owners + [who])[..|owners|] == owners;
  }

  /** One more claim adds that candidate's rows, or its failure, to the output. */
  lemma SplitGrows<C, R>(p2: seq<C>, decode: C -> seq<R>, owners: seq<Core>, who: Core)
    requires |owners| < |p2|
    ensures
      var before, after := Split(p2, decode, owners), Split(p2, decode, owners + [who]);
      var c := p2[|owners|];
      && multiset(after.results) == multiset(before.results) + multiset(decode(c))
      && multiset(after.failed) == multiset(before.failed) + multiset(if decode(c) == [] then [c] else [])
  {
    var c := p2[|owners|];
    ShareGrows(p2, owners, who, Main);
    ShareGrows(p2, owners, who, Worker);
    var m, w := Share(p2, owners, Main), Share(p2, owners, Worker);
    DrainSnoc(decode, if who == Main then m else w, c);
    assert Share(p2, owners + [who], Main) == if who == Main then m + [c] else m;
    assert Share(p2, owners + [who], Worker) == if who == Worker then w + [c] else w;
    MultisetInsert(Drain(decode, m).results, decode(c), Drain(decode, w).results);
    MultisetInsert(Drain(decode, m).failed, if decode(c) == [] then [c] else [], Drain(decode, w).failed);
  }

  /** Whoever claimed what, the two cores' outputs together are the claimed
      prefix's rows and failures, each exactly once. */
  lemma {:induction false} SplitAttemptsPrefix<C, R>(p2: seq<C>, decode: C -> seq<R>, owners: seq<Core>)
    requires |owners| <= |p2|
    ensures Attempted(p2, decode, |owners|, Split(p2, decode, owners))
  {
    if owners == [] {
      assert p2[..0] == [];
    } else {
      var n := |owners| - 1;
      SplitAttemptsPrefix(p2, decode, owners[..n]);
      assert owners == owners[..n] + [owners[n]];
      SplitGrows(p2, decode, owners[..n], owners[n]);
      AttemptOneMore(p2, decode, n, Split(p2, decode, owners[..n]), Split(p2, decode, owners));
    }
  }

  lemma AttemptOneMore<C, R>(p2: seq<C>, decode: C -> seq<R>, n: nat,
                             before: Stage3Split<C, R>, after: Stage3Split<C, R>)
    requires n < |p2| && Attempted(p2, decode, n, before) && after.unclaimed == p2[n + 1..]
    requires multiset(after.results) == multiset(before.results) + multiset(decode(p2[n]))
    requires multiset(after.failed)
          == multiset(before.failed) + multiset(if decode(p2[n]) == [] then [p2[n]] else [])
    ensures Attempted(p2, decode, n + 1, after)
  {
    TakeSnoc(p2, n);
    DrainSnoc(decode, p2[..n], p2[n]);
    MultisetConcat(Rows(decode, p2[..n]), decode(p2[n]));
    MultisetConcat(Failing(decode, p2[..n]), if decode(p2[n]) == [] then [p2[n]] else []);
  }

  /** Every candidate is accounted for once: it produced rows, or it failed, or
      it is in `unclaimed`. */
  lemma {:induction false} DecodedFailedPartition<C, R>(decode: C -> seq<R>, cs: seq<C>)
    ensures multiset(cs) == multiset(Failing(decode, cs)) + multiset(Succeeding(decode, cs))
  {
    if cs != [] {
      var n := |cs| - 1;
      TakeSnoc(cs, n);
      assert cs[..n + 1] == cs;
      DecodedFailedPartition(decode, cs[..n]);
    }
  }

  /** The candidates of `cs` that decode to at least one row. */
  function Succeeding<C, R>(decode: C -> seq<R>, cs: seq<C>): seq<C> {
    if cs == [] then []
    else
      var n := |cs| - 1;
      Succeeding(decode, cs[..n]) + (if decode(cs[n]) == [] then [] else [cs[n]])
  }

  /** Stopping a batch at the slot boundary and resuming on what was left
      attempts the same prefix one uninterrupted call would have: the merged
      output meets the single call's contract. */
  lemma ResumeIsOneCall<C, R>(p2: seq<C>, decode: C -> seq<R>, o1: seq<Core>, o2: seq<Core>)
    requires |o1| + |o2| <= |p2|
    ensures
      var first := Split(p2, decode, o1);
      var rest := Split(first.unclaimed, decode, o2);
      && Attempted(p2, decode, |o1| + |o2|,
                   Stage3Split(first.results + rest.results, first.failed + rest.failed, rest.unclaimed))
      && p2 == p2[..|o1|] + first.unclaimed[..|o2|] + rest.unclaimed
  {
    var left := p2[|o1|..];
    SplitAttemptsPrefix(p2, decode, o1);
    SplitAttemptsPrefix(left, decode, o2);
    MergeAttempts(p2, decode, |o1|, |o2|, Split(p2, decode, o1), Split(left, decode, o2));
  }

  lemma MergeAttempts<C, R>(p2: seq<C>, decode: C -> seq<R>, k1: nat, k2: nat,
                            first: Stage3Split<C, R>, rest: Stage3Split<C, R>)
    requires Attempted(p2, decode, k1, first) && Attempted(first.unclaimed, decode, k2, rest)
    ensures Attempted(p2, decode, k1 + k2,
                      Stage3Split(first.results + rest.results, first.failed + rest.failed, rest.unclaimed))
    ensures p2 == p2[..k1] + first.unclaimed[..k2] + rest.unclaimed
  {
    var a, b := p2[..k1], first.unclaimed[..k2];
    assert p2[..k1 + k2] == a + b;
    assert p2[k1 + k2..] == first.unclaimed[k2..];
    DrainAppend(decode, a, b);
    MultisetMerge(first.results, Rows(decode, a), rest.results, Rows(decode, b));
    MultisetMerge(first.failed, Failing(decode, a), rest.failed, Failing(decode, b));
  }

  // ---- The two claim loops as a state machine -------------------------------

  /** Where a core stands in its claim loop. */
  datatype Pc<C> =
    | Polling                // about to ask stop.reached()
    | Claiming               // about to fetch_add
    | Taking(i: nat)         // owns slot i, about to take it
    | Decoding(cand: C)      // running stage 3 on a candidate
    | Left(overran: bool)    // out of the loop; overran: the last claim was past the end

  datatype CoreState<C, R> = CoreState(pc: Pc<C>, out: Stage3Out<C, R>)

  datatype State<C, R> = State(
    slots: seq<Option<C>>,
    nextIdx: nat,
    main: CoreState<C, R>,
    worker: CoreState<C, R>,
    owners: seq<Core>  // history: who made each in-range claim
  ) {
    function At(c: Core): CoreState<C, R> {
      if c == Main then main else worker
    }

    function With(c: Core, cs: CoreState<C, R>): State<C, R> {
      if c == Main then this.(main := cs) else this.(worker := cs)
    }

    predicate Joined() {
      main.pc.Left? && worker.pc.Left?
    }
  }

  /** One atomic step of one core. */
  datatype Event = Event(core: Core, stop: bool)

  function Init<C, R>(p2: seq<C>): State<C, R> {
    var idle := CoreState(Polling, Stage3Out([], []));
    State(seq(|p2|, i requires 0 <= i < |p2| => Some(p2[i])), 0, idle, idle, [])
  }

  predicate Enabled<C, R>(s: State<C, R>, e: Event) {
    match s.At(e.core).pc
    case Left(_) => false
    case Taking(i) => i < |s.slots|
    case _ => true
  }

  /** The effect of one step; `e.stop` is the answer `stop.reached()` gives
      when the step is a poll. */
  function Step<C, R>(s: State<C, R>, decode: C -> seq<R>, e: Event): State<C, R>
    requires Enabled(s, e)
  {
    var me := s.At(e.core);
    match me.pc
    case Polling =>
      s.With(e.core, me.(pc := if e.stop then Left(false) else Claiming))
    case Claiming =>
      var i := s.nextIdx;
      var s' := s.(nextIdx := i + 1);
      if i >= |s.slots| then s'.With(e.core, me.(pc := Left(true)))
      else s'.(owners := s.owners + [e.core]).With(e.core, me.(pc := Taking(i)))
    case Taking(i) =>
      var s' := s.(slots := s.slots[i := None]);
      (match s.slots[i]
       case None => s'.With(e.core, me.(pc := Polling))
       case Some(cand) => s'.With(e.core, me.(pc := Decoding(cand))))
    case Decoding(cand) =>
      var rows := decode(cand);
      var out := if rows == [] then me.out.(failed := me.out.failed + [cand])
                 else me.out.(results := me.out.results + rows);
      s.With(e.core, CoreState(Polling, out))
    case Left(_) => s
  }

  /** The state after a schedule, if every step of it was enabled. */
  function Run<C, R>(s: State<C, R>, decode: C -> seq<R>, es: seq<Event>): Option<State<C, R>> {
    if es == [] then Some(s)
    else
      var n := |es| - 1;
      match Run(s, decode, es[..n])
      case None => None
      case Some(t) => if Enabled(t, es[n]) then Some(Step(t, decode, es[n])) else None
  }

  /** Reading the result once both cores have joined. */
  function Collect<C, R>(s: State<C, R>): Stage3Split<C, R> {
    var claimed := if s.nextIdx <= |s.slots| then s.nextIdx else |s.slots|;
    Stage3Split(s.main.out.results + s.worker.out.results,
                s.main.out.failed + s.worker.out.failed,
                Present(s.slots[claimed..]))
  }

  /** `drain(claimed..).flatten()`: the slots still occupied, in order. */
  function Present<C>(slots: seq<Option<C>>): seq<C> {
    if slots == [] then []
    else (match slots[0] case None => [] case Some(c) => [c]) + Present(slots[1..])
  }

  // ---- The invariant ---------------------------------------------------------

  /** Claims past the end: at most one per core, and it is that core's last. */
  function Overruns<C, R>(cs: CoreState<C, R>): nat {
    if cs.pc == Left(true) then 1 else 0
  }

  /** The index core `c` is working on, if it has claimed one and not finished. */
  ghost predicate Holds<C, R>(s: State<C, R>, p2: seq<C>, c: Core, i: nat) {
    && i < |s.owners| <= |p2|
    && s.owners[i] == c
    && (forall j :: i < j < |s.owners| ==> s.owners[j] != c)
    && (s.At(c).pc == Taking(i) || s.At(c).pc == Decoding(p2[i]))
  }

  ghost predicate CoreInv<C, R>(s: State<C, R>, p2: seq<C>, decode: C -> seq<R>, c: Core)
    requires |s.owners| <= |p2|
  {
    match s.At(c).pc
    case Taking(i) => Holds(s, p2, c, i) && s.At(c).out == Drain(decode, Share(p2, s.owners[..i], c))
    case Decoding(_) =>
      exists i: nat :: Holds(s, p2, c, i) && s.At(c).out == Drain(decode, Share(p2, s.owners[..i], c))
    case _ => s.At(c).out == Drain(decode, Share(p2, s.owners, c))
  }

  /** A slot is occupied until its claimant takes it. */
  ghost predicate SlotsInv<C, R>(s: State<C, R>, p2: seq<C>)
    requires |s.slots| == |p2|
  {
    forall i :: 0 <= i < |p2| ==>
      s.slots[i] == if i >= |s.owners| || s.At(s.owners[i]).pc == Taking(i) then Some(p2[i]) else None
  }

  ghost predicate Inv<C, R>(s: State<C, R>, p2: seq<C>, decode: C -> seq<R>) {
    && |s.slots| == |p2|
    && |s.owners| == (if s.nextIdx <= |p2| then s.nextIdx else |p2|)
    && s.nextIdx == |s.owners| + Overruns(s.main) + Overruns(s.worker)
    && (Overruns(s.main) + Overruns(s.worker) > 0 ==> |s.owners| == |p2|)
    && SlotsInv(s, p2)
    && CoreInv(s, p2, decode, Main)
    && CoreInv(s, p2, decode, Worker)
  }

  /** Claims by the other core do not change a core's share. */
  lemma {:induction false} ShareFrozen<C>(p2: seq<C>, owners: seq<Core>, i: nat, c: Core)
    requires i <= |owners| <= |p2|
    requires forall j :: i <= j < |owners| ==> owners[j] != c
    ensures Share(p2, owners, c) == Share(p2, owners[..i], c)
  {
    if i < |owners| {
      var n := |owners| - 1;
      ShareFrozen(p2, owners[..n], i, c);
      assert owners[..n][..i] == owners[..i];
    } else {
      assert owners[..i] == owners;
    }
  }

  /** A core that still holds claim `i` has claimed one candidate more than it
      has finished. */
  lemma ShareOfHeld<C>(p2: seq<C>, owners: seq<Core>, i: nat, c: Core)
    requires i < |owners| <= |p2| && owners[i] == c
    requires forall j :: i < j < |owners| ==> owners[j] != c
    ensures Share(p2, owners, c) == Share(p2, owners[..i], c) + [p2[i]]
  {
    ShareFrozen(p2, owners, i + 1, c);
    assert owners[..i + 1][..i] == owners[..i];
  }

  lemma InitInv<C, R>(p2: seq<C>, decode: C -> seq<R>)
    ensures Inv(Init<C, R>(p2), p2, decode)
  {
  }

  /** A core's part of the invariant does not depend on the other core's claims. */
  lemma ClaimFramesOther<C, R>(s: State<C, R>, s': State<C, R>, p2: seq<C>, decode: C -> seq<R>, o: Core, who: Core)
    requires |s.owners| < |p2| && s'.owners == s.owners + [who] && who != o
    requires s'.At(o) == s.At(o) && CoreInv(s, p2, decode, o)
    ensures CoreInv(s', p2, decode, o)
  {
    ShareGrows(p2, s.owners, who, o);
    assert Share(p2, s'.owners, o) == Share(p2, s.owners, o);
    forall i: nat | Holds(s, p2, o, i) ensures Holds(s', p2, o, i) && s'.owners[..i] == s.owners[..i] {
    }
  }

  /** The other core's part of the invariant survives any step of `e.core`. */
  lemma OtherCoreKeeps<C, R>(s: State<C, R>, p2: seq<C>, decode: C -> seq<R>, e: Event, o: Core)
    requires Inv(s, p2, decode) && Enabled(s, e) && o != e.core
    ensures var s' := Step(s, decode, e); |s'.owners| <= |p2| && CoreInv(s', p2, decode, o)
  {
    var s' := Step(s, decode, e);
    if s'.owners != s.owners {
      ClaimFramesOther(s, s', p2, decode, o, e.core);
    } else {
      forall i: nat | Holds(s, p2, o, i) ensures Holds(s', p2, o, i) {
      }
    }
  }

  lemma ActingCoreKeeps<C, R>(s: State<C, R>, p2: seq<C>, decode: C -> seq<R>, e: Event)
    requires Inv(s, p2, decode) && Enabled(s, e)
    ensures var s' := Step(s, decode, e); |s'.owners| <= |p2| && CoreInv(s', p2, decode, e.core)
  {
    var c := e.core;
    var s' := Step(s, decode, e);
    match s.At(c).pc
    case Claiming =>
      if s.nextIdx < |s.slots| {
        var i := s.nextIdx;
        assert s'.owners[..i] == s.owners;
        assert Holds(s', p2, c, i);
      }
    case Taking(i) =>
      assert s.slots[i] == Some(p2[i]);
      assert Holds(s', p2, c, i);
    case Decoding(cand) =>
      var i: nat :| Holds(s, p2, c, i) && s.At(c).out == Drain(decode, Share(p2, s.owners[..i], c));
      ShareOfHeld(p2, s.owners, i, c);
      var before := Share(p2, s.owners[..i], c);
      assert (before + [p2[i]])[..|before|] == before;
    case _ =>
  }

  lemma SlotsKeep<C, R>(s: State<C, R>, p2: seq<C>, decode: C -> seq<R>, e: Event)
    requires Inv(s, p2, decode) && Enabled(s, e)
    ensures var s' := Step(s, decode, e); |s'.slots| == |p2| && SlotsInv(s', p2)
  {
    var s' := Step(s, decode, e);
    forall i | 0 <= i < |p2|
      ensures s'.slots[i] == if i >= |s'.owners| || s'.At(s'.owners[i]).pc == Taking(i) then Some(p2[i]) else None
    {
      if i < |s.owners| {
        assert s'.owners[i] == s.owners[i];
      }
    }
  }

  lemma StepInv<C, R>(s: State<C, R>, p2: seq<C>, decode: C -> seq<R>, e: Event)
    requires Inv(s, p2, decode) && Enabled(s, e)
    ensures Inv(Step(s, decode, e), p2, decode)
  {
    SlotsKeep(s, p2, decode, e);
    OtherCoreKeeps(s, p2, decode, e, if e.core == Main then Worker else Main);
    ActingCoreKeeps(s, p2, decode, e);
  }

  lemma {:induction false} RunInv<C, R>(p2: seq<C>, decode: C -> seq<R>, es: seq<Event>)
    requires Run(Init<C, R>(p2), decode, es).Some?
    ensures Inv(Run(Init<C, R>(p2), decode, es).value, p2, decode)
  {
    if es == [] {
      InitInv<C, R>(p2, decode);
    } else {
      var n := |es| - 1;
      RunInv(p2, decode, es[..n]);
      StepInv(Run(Init<C, R>(p2), decode, es[..n]).value, p2, decode, es[n]);
    }
  }

  lemma {:induction false} PresentAll<C>(slots: seq<Option<C>>, cs: seq<C>)
    requires |slots| == |cs| && forall i :: 0 <= i < |cs| ==> slots[i] == Some(cs[i])
    ensures Present(slots) == cs
  {
    if slots != [] {
      PresentAll(slots[1..], cs[1..]);
      assert cs == [cs[0]] + cs[1..];
    }
  }

  // ---- Main results ------------------------------------------------------------

  /** Whatever the interleaving and whatever `stop.reached()` answers: once both
      cores have joined, the call's result is `Split` of the claim order, the
      claims are the prefix `owners` names, and the counter has overshot by at
      most one per core. */
  lemma RunIsSplit<C, R>(p2: seq<C>, decode: C -> seq<R>, es: seq<Event>)
    requires Run(Init<C, R>(p2), decode, es).Some?
    requires Run(Init<C, R>(p2), decode, es).value.Joined()
    ensures
      var s := Run(Init<C, R>(p2), decode, es).value;
      && |s.owners| <= |p2|
      && Collect(s) == Split(p2, decode, s.owners)
      && Attempted(p2, decode, |s.owners|, Collect(s))
      && |s.owners| <= s.nextIdx <= |s.owners| + 2
      && s.main.out.results <= Collect(s).results && s.main.out.failed <= Collect(s).failed
  {
    RunInv(p2, decode, es);
    var s := Run(Init<C, R>(p2), decode, es).value;
    JoinedIsSplit(s, p2, decode);
    SplitAttemptsPrefix(p2, decode, s.owners);
  }

  lemma JoinedIsSplit<C, R>(s: State<C, R>, p2: seq<C>, decode: C -> seq<R>)
    requires Inv(s, p2, decode) && s.Joined()
    ensures
      && |s.owners| <= |p2|
      && Collect(s) == Split(p2, decode, s.owners)
      && |s.owners| <= s.nextIdx <= |s.owners| + 2
  {
    var k := |s.owners|;
    PresentAll(s.slots[k..], p2[k..]);
  }

  /** No slot is ever in two hands: at every reachable state the cores hold
      different claims, and a core about to take a slot finds it occupied, so the
      loop's `continue` on an empty slot is dead code. */
  lemma ClaimsAreExclusive<C, R>(p2: seq<C>, decode: C -> seq<R>, es: seq<Event>, i: nat, j: nat)
    requires Run(Init<C, R>(p2), decode, es).Some?
    ensures
      var s := Run(Init<C, R>(p2), decode, es).value;
      && (Holds(s, p2, Main, i) && Holds(s, p2, Worker, j) ==> i != j)
      && (forall c: Core :: s.At(c).pc == Taking(i) ==> i < |p2| == |s.slots| && s.slots[i] == Some(p2[i]))
  {
    RunInv(p2, decode, es);
  }

  /** A bound on the steps still to come. */
  function Rank<C, R>(s: State<C, R>): nat {
    5 * (if s.nextIdx <= |s.slots| then |s.slots| - s.nextIdx else 0) + PcRank(s.main.pc) + PcRank(s.worker.pc)
  }

  function PcRank<C>(pc: Pc<C>): nat {
    match pc
    case Left(_) => 0
    case Claiming => 1
    case Polling => 2
    case Decoding(_) => 3
    case Taking(_) => 4
  }

  lemma StepDescends<C, R>(s: State<C, R>, decode: C -> seq<R>, e: Event)
    requires Enabled(s, e)
    ensures Rank(Step(s, decode, e)) < Rank(s)
  {
  }

  /** Every run ends, within five steps per candidate plus two per core, and a
      run that has not ended can always move. */
  lemma {:induction false} RunsTerminate<C, R>(p2: seq<C>, decode: C -> seq<R>, es: seq<Event>)
    requires Run(Init<C, R>(p2), decode, es).Some?
    ensures |es| + Rank(Run(Init<C, R>(p2), decode, es).value) <= 5 * |p2| + 4
    ensures
      var s := Run(Init<C, R>(p2), decode, es).value;
      s.Joined() || Enabled(s, Event(Main, false)) || Enabled(s, Event(Worker, false))
  {
    RunInv(p2, decode, es);
    if es != [] {
      var n := |es| - 1;
      RunsTerminate(p2, decode, es[..n]);
      StepDescends(Run(Init<C, R>(p2), decode, es[..n]).value, decode, es[n]);
    }
  }

  // ---- Every claim order is a run -------------------------------------------------

  /** The schedule in which the claims are made one after another by `owners`,
      each candidate finished before the next is claimed. */
  function Serial(owners: seq<Core>): seq<Event> {
    if owners == [] then []
    else
      var e := Event(owners[|owners| - 1], false);
      Serial(owners[..|owners| - 1]) + [e] + [e] + [e] + [e]
  }

  lemma RunSnoc<C, R>(s: State<C, R>, decode: C -> seq<R>, es: seq<Event>, e: Event)
    requires Run(s, decode, es).Some? && Enabled(Run(s, decode, es).value, e)
    ensures Run(s, decode, es + [e]) == Some(Step(Run(s, decode, es).value, decode, e))
  {
    assert (es + [e])[..|es|] == es;
  }

  /** Between claims, one core can poll, claim, take and finish undisturbed. */
  lemma OneTurn<C, R>(p2: seq<C>, decode: C -> seq<R>, s: State<C, R>, c: Core) returns (t: State<C, R>)
    requires Inv(s, p2, decode) && s.main.pc == Polling && s.worker.pc == Polling && |s.owners| < |p2|
    ensures
      var e := Event(c, false);
      && Enabled(s, e)
      && var s1 := Step(s, decode, e);
      && Enabled(s1, e)
      && var s2 := Step(s1, decode, e);
      && Enabled(s2, e)
      && var s3 := Step(s2, decode, e);
      && Enabled(s3, e)
      && t == Step(s3, decode, e)
    ensures Inv(t, p2, decode) && t.main.pc == Polling && t.worker.pc == Polling && t.owners == s.owners + [c]
  {
    var e := Event(c, false);
    var s1 := Step(s, decode, e);
    StepInv(s, p2, decode, e);
    var s2 := Step(s1, decode, e);
    StepInv(s1, p2, decode, e);
    assert s2.At(c).pc == Taking(|s.owners|);
    var s3 := Step(s2, decode, e);
    StepInv(s2, p2, decode, e);
    t := Step(s3, decode, e);
    StepInv(s3, p2, decode, e);
  }

  lemma {:induction false} SerialRuns<C, R>(p2: seq<C>, decode: C -> seq<R>, owners: seq<Core>)
    requires |owners| <= |p2|
    ensures
      var r := Run(Init<C, R>(p2), decode, Serial(owners));
      && r.Some? && Inv(r.value, p2, decode)
      && r.value.owners == owners && r.value.main.pc == Polling && r.value.worker.pc == Polling
  {
    var s0 := Init<C, R>(p2);
    if owners == [] {
      InitInv<C, R>(p2, decode);
    } else {
      var n := |owners| - 1;
      SerialRuns(p2, decode, owners[..n]);
      var es := Serial(owners[..n]);
      var e := Event(owners[n], false);
      var t := OneTurn(p2, decode, Run(s0, decode, es).value, owners[n]);
      RunSnoc(s0, decode, es, e);
      RunSnoc(s0, decode, es + [e], e);
      RunSnoc(s0, decode, es + [e] + [e], e);
      RunSnoc(s0, decode, es + [e] + [e] + [e], e);
      assert Run(s0, decode, Serial(owners)) == Some(t);
      assert owners[..n] + [owners[n]] == owners;
    }
  }

  lemma SplitSchedule<C, R>(p2: seq<C>, decode: C -> seq<R>, owners: seq<Core>) returns (es: seq<Event>)
    requires |owners| <= |p2|
    ensures var r := Run(Init<C, R>(p2), decode, es); r.Some? && r.value.Joined() && r.value.owners == owners
  {
    SerialRuns(p2, decode, owners);
    var s0 := Init<C, R>(p2);
    var serial := Serial(owners);
    var stopMain, stopWorker := Event(Main, true), Event(Worker, true);
    RunSnoc(s0, decode, serial, stopMain);
    RunSnoc(s0, decode, serial + [stopMain], stopWorker);
    es := serial + [stopMain] + [stopWorker];
  }

  /** The converse of `RunIsSplit`: every claim order of every prefix is what
      some run does, so `Split` describes the call exactly. */
  lemma SplitIsReachable<C, R>(p2: seq<C>, decode: C -> seq<R>, owners: seq<Core>)
    requires |owners| <= |p2|
    ensures exists es :: (var r := Run(Init<C, R>(p2), decode, es);
                          r.Some? && r.value.Joined() && Collect(r.value) == Split(p2, decode, owners))
  {
    var es := SplitSchedule(p2, decode, owners);
    RunIsSplit(p2, decode, es);
  }
}

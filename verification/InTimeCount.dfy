/** What `n_in_time` counts (embedded-poc/embedded-shared/src/dual_core.rs,
    `run_speculative_slot`). It is documented as the number of `results` decoded before
    the slot boundary. What is counted is the rows of some batches, before duplicate
    messages are removed, capped at the number of rows that remain; here is exactly
    when that is the documented number. */
module InTimeCount {

  import opened Common
  import opened Speculative
  import TopK
  import WorkSteal

  function Flags(n: nat, b: bool): (f: seq<bool>)
    ensures |f| == n
  {
    seq(n, i => b)
  }

  function Trues(flags: seq<bool>): nat {
    if flags == [] then 0 else Trues(flags[..|flags| - 1]) + if flags[|flags| - 1] then 1 else 0
  }

  /** Which of all rows are counted, in their order. */
  function CountedFlags<P, R>(s: Stages<P, R>, t: Timing): (f: seq<bool>)
    requires s.inTime <= |s.first.results|
    ensures |f| == |AllRows(s)|
  {
    Flags(s.inTime, true) + Flags(|s.first.results| - s.inTime, false) + Flags(|s.retried.results|, false)
    + Flags(|s.lateSplit.results|, t.lateInTime) + Flags(|s.tailSplit.results|, t.tailInTime)
  }

  /** Which were decoded by the boundary. */
  function TrueFlags(t: Timing, n: nat): (f: seq<bool>)
    ensures |f| == n
  {
    seq(n, i requires 0 <= i < n => i < |t.byBoundary| && t.byBoundary[i])
  }

  /** The rows that remain and were decoded by the boundary: the documented number is
      their count. */
  function Answerable<R, M(==)>(rows: seq<R>, msg: R -> M, inTime: seq<bool>): seq<R>
    requires |inTime| == |rows|
  {
    if rows == [] then []
    else
      var n := |rows| - 1;
      var before := Answerable(rows[..n], msg, inTime[..n]);
      if inTime[n] && !HasMessage(rows[..n], msg, msg(rows[n])) then before + [rows[n]] else before
  }

  /** What became of a row: it remained or a row before it had its message; it was
      counted or not; it was in time or not. */
  datatype Fate = Fate(kept: bool, counted: bool, inTime: bool)

  function Fates<R, M(==)>(rows: seq<R>, msg: R -> M, counted: seq<bool>, inTime: seq<bool>): (f: seq<Fate>)
    requires |counted| == |inTime| == |rows|
    ensures |f| == |rows|
  {
    if rows == [] then []
    else
      var n := |rows| - 1;
      Fates(rows[..n], msg, counted[..n], inTime[..n])
      + [Fate(!HasMessage(rows[..n], msg, msg(rows[n])), counted[n], inTime[n])]
  }

  function Both(f: multiset<Fate>, kept: bool, counted: bool): nat {
    f[Fate(kept, counted, true)] + f[Fate(kept, counted, false)]
  }

  lemma FatesSnoc<R, M>(rows: seq<R>, msg: R -> M, counted: seq<bool>, inTime: seq<bool>)
    requires |counted| == |inTime| == |rows| && rows != []
    ensures
      var n := |rows| - 1;
      multiset(Fates(rows, msg, counted, inTime))
      == multiset(Fates(rows[..n], msg, counted[..n], inTime[..n]))
       + multiset{Fate(!HasMessage(rows[..n], msg, msg(rows[n])), counted[n], inTime[n])}
  {
  }

  lemma KeptMessage<R, M>(rows: seq<R>, msg: R -> M, m: M)
    ensures HasMessage(KeepFirst(rows, msg), msg, m) <==> HasMessage(rows, msg, m)
  {
    KeepFirstIsFirst(rows, msg);
  }

  lemma {:induction false} TallyKept<R, M>(rows: seq<R>, msg: R -> M, counted: seq<bool>, inTime: seq<bool>)
    requires |counted| == |inTime| == |rows|
    ensures
      var f := multiset(Fates(rows, msg, counted, inTime));
      |KeepFirst(rows, msg)| == Both(f, true, true) + Both(f, true, false)
  {
    if rows != [] {
      var n := |rows| - 1;
      TallyKept(rows[..n], msg, counted[..n], inTime[..n]);
      KeptMessage(rows[..n], msg, msg(rows[n]));
      FatesSnoc(rows, msg, counted, inTime);
    }
  }

  lemma {:induction false} TallyCounted<R, M>(rows: seq<R>, msg: R -> M, counted: seq<bool>, inTime: seq<bool>)
    requires |counted| == |inTime| == |rows|
    ensures
      var f := multiset(Fates(rows, msg, counted, inTime));
      Trues(counted) == Both(f, true, true) + Both(f, false, true)
  {
    if rows != [] {
      var n := |rows| - 1;
      TallyCounted(rows[..n], msg, counted[..n], inTime[..n]);
      FatesSnoc(rows, msg, counted, inTime);
    }
  }

  lemma {:induction false} TallyAnswerable<R, M>(rows: seq<R>, msg: R -> M, counted: seq<bool>, inTime: seq<bool>)
    requires |counted| == |inTime| == |rows|
    ensures
      var f := multiset(Fates(rows, msg, counted, inTime));
      |Answerable(rows, msg, inTime)| == f[Fate(true, true, true)] + f[Fate(true, false, true)]
  {
    if rows != [] {
      var n := |rows| - 1;
      TallyAnswerable(rows[..n], msg, counted[..n], inTime[..n]);
      FatesSnoc(rows, msg, counted, inTime);
    }
  }

  lemma {:induction false} TruesConcat(a: seq<bool>, b: seq<bool>)
    ensures Trues(a + b) == Trues(a) + Trues(b)
  {
    if b == [] {
      assert a + b == a;
    } else {
      TruesConcat(a, b[..|b| - 1]);
      assert (a + b)[..|a + b| - 1] == a + b[..|b| - 1];
    }
  }

  lemma {:induction false} TruesOf(n: nat, b: bool)
    ensures Trues(Flags(n, b)) == if b then n else 0
  {
    if n > 0 {
      TruesOf(n - 1, b);
      assert Flags(n, b)[..n - 1] == Flags(n - 1, b);
    }
  }

  lemma CountedIsInTime<P, R>(s: Stages<P, R>, t: Timing)
    requires s.inTime <= |s.first.results|
    ensures Trues(CountedFlags(s, t)) == InTime(s, t)
  {
    var a, b := Flags(s.inTime, true), Flags(|s.first.results| - s.inTime, false);
    var c := Flags(|s.retried.results|, false);
    var d, e := Flags(|s.lateSplit.results|, t.lateInTime), Flags(|s.tailSplit.results|, t.tailInTime);
    TruesConcat(a, b);
    TruesConcat(a + b, c);
    TruesConcat(a + b + c, d);
    TruesConcat(a + b + c + d, e);
    TruesOf(|a|, true);
    TruesOf(|b|, false);
    TruesOf(|c|, false);
    TruesOf(|d|, t.lateInTime);
    TruesOf(|e|, t.tailInTime);
  }

  lemma InTimeWithinFirst<P, R>(cfg: Config, w: World<P, R>, t: Timing)
    ensures Play(cfg, w, t).inTime <= |Play(cfg, w, t).first.results|
  {
  }

  /** The fates of all rows of a slot. */
  function SlotFates<P, R, M(==)>(s: Stages<P, R>, t: Timing, msg: R -> M): seq<Fate>
    requires s.inTime <= |s.first.results|
  {
    Fates(AllRows(s), msg, CountedFlags(s, t), TrueFlags(t, |AllRows(s)|))
  }

  /** The counter, as `RunSpeculativeSlot` returns it. */
  function Counter<P, R, M(==)>(s: Stages<P, R>, t: Timing, msg: R -> M): nat {
    Min(InTime(s, t), |KeepFirst(AllRows(s), msg)|)
  }

  /** The documented number. */
  function Documented<P, R, M(==)>(s: Stages<P, R>, t: Timing, msg: R -> M): nat {
    |Answerable(AllRows(s), msg, TrueFlags(t, |AllRows(s)|))|
  }

  lemma Balance(f: multiset<Fate>, counted: nat, kept: nat, answerable: nat)
    requires counted == Both(f, true, true) + Both(f, false, true)
    requires kept == Both(f, true, true) + Both(f, true, false)
    requires answerable == f[Fate(true, true, true)] + f[Fate(true, false, true)]
    ensures Min(counted, kept) + f[Fate(true, false, true)]
         == answerable + f[Fate(true, true, false)] + Min(Both(f, false, true), Both(f, true, false))
  {
  }

  /** The counter is off by what is counted and was late, plus the duplicates counted
      (as far as rows that were not counted remain to stand in for them), less what
      remained in time uncounted: an early retry, or a row of a batch that ended
      late. It is right exactly when these cancel. */
  lemma InTimeExactly<P, R, M>(cfg: Config, w: World<P, R>, t: Timing, msg: R -> M)
    ensures
      var s := Play(cfg, w, t);
      s.inTime <= |s.first.results|
      && var f := multiset(SlotFates(s, t, msg));
         var late, missed := f[Fate(true, true, false)], f[Fate(true, false, true)];
         var stand := Min(Both(f, false, true), Both(f, true, false));
         && Counter(s, t, msg) + missed == Documented(s, t, msg) + late + stand
         && (Counter(s, t, msg) == Documented(s, t, msg) <==> late + stand == missed)
  {
    var s := Play(cfg, w, t);
    InTimeWithinFirst(cfg, w, t);
    var rows, counted, inTime := AllRows(s), CountedFlags(s, t), TrueFlags(t, |AllRows(s)|);
    TallyKept(rows, msg, counted, inTime);
    TallyCounted(rows, msg, counted, inTime);
    TallyAnswerable(rows, msg, counted, inTime);
    CountedIsInTime(s, t);
    Balance(multiset(Fates(rows, msg, counted, inTime)), InTime(s, t), |KeepFirst(rows, msg)|, |Answerable(rows, msg, inTime)|);
  }

  /** Even when the rows counted are the rows in time, the counter is right only if no
      counted row was a duplicate, or no other row remains. */
  lemma InTimeWhenCountedIsTrue<P, R, M>(cfg: Config, w: World<P, R>, t: Timing, msg: R -> M)
    requires
      var s := Play(cfg, w, t);
      s.inTime <= |s.first.results| && CountedFlags(s, t) == TrueFlags(t, |AllRows(s)|)
    ensures
      var s := Play(cfg, w, t);
      var f := multiset(SlotFates(s, t, msg));
      Counter(s, t, msg) == Documented(s, t, msg) <==> Both(f, false, true) == 0 || Both(f, true, false) == 0
  {
    var s := Play(cfg, w, t);
    InTimeExactly(cfg, w, t, msg);
    SameFlags(AllRows(s), msg, CountedFlags(s, t));
  }

  lemma {:induction false} SameFlags<R, M>(rows: seq<R>, msg: R -> M, counted: seq<bool>)
    requires |counted| == |rows|
    ensures
      var f := multiset(Fates(rows, msg, counted, counted));
      forall kept :: f[Fate(kept, true, false)] == 0 && f[Fate(kept, false, true)] == 0
  {
    if rows != [] {
      var n := |rows| - 1;
      SameFlags(rows[..n], msg, counted[..n]);
      FatesSnoc(rows, msg, counted, counted);
    }
  }

  // ---- By stages ------------------------------------------------------------------------------

  /** Which rows are early retries that were in time. */
  function RetryFlags<P, R>(s: Stages<P, R>, t: Timing): (f: seq<bool>)
    ensures |f| == |AllRows(s)|
  {
    var n, from := |AllRows(s)|, |s.first.results|;
    seq(n, i requires 0 <= i < n => from <= i < from + |s.retried.results| && TrueFlags(t, n)[i])
  }

  /** Row `i` is of the stage that begins at row `from` and has `n` rows. */
  predicate InStage(i: int, from: nat, n: nat) {
    from <= i < from + n
  }

  /** Nothing straddles the boundary: a first attempt claimed by it has ended by it, one
      claimed later has not, and none has if the boundary was not ahead; a later batch
      ends by it or starts after it. Only the early retries may fall either side. */
  ghost predicate ByStages<P, R>(s: Stages<P, R>, t: Timing)
    requires s.inTime <= |s.first.results|
  {
    var f, e, l := |s.first.results|, |s.retried.results|, |s.lateSplit.results|;
    forall i :: 0 <= i < |AllRows(s)| ==>
      && (InStage(i, 0, f) ==> (TrueFlags(t, |AllRows(s)|)[i] <==> i < s.inTime))
      && (InStage(i, f + e, l) ==> (TrueFlags(t, |AllRows(s)|)[i] <==> t.lateInTime))
      && (InStage(i, f + e + l, |s.tailSplit.results|) ==> (TrueFlags(t, |AllRows(s)|)[i] <==> t.tailInTime))
  }

  lemma StagesAgree<P, R>(s: Stages<P, R>, t: Timing)
    requires s.inTime <= |s.first.results| && ByStages(s, t)
    ensures forall i :: 0 <= i < |AllRows(s)| ==>
      (TrueFlags(t, |AllRows(s)|)[i] <==> CountedFlags(s, t)[i] || RetryFlags(s, t)[i])
  {
    var f, e, l := |s.first.results|, |s.retried.results|, |s.lateSplit.results|;
    forall i | 0 <= i < |AllRows(s)|
      ensures TrueFlags(t, |AllRows(s)|)[i] <==> CountedFlags(s, t)[i] || RetryFlags(s, t)[i]
    {
      assert InStage(i, 0, f) || InStage(i, f, e) || InStage(i, f + e, l) || InStage(i, f + e + l, |s.tailSplit.results|);
    }
  }

  predicate Disjoint(a: seq<bool>, b: seq<bool>) {
    |a| == |b| && forall i :: 0 <= i < |a| ==> !(a[i] && b[i])
  }

  /** An early retry is not counted. */
  lemma RetriesUncounted<P, R>(s: Stages<P, R>, t: Timing)
    requires s.inTime <= |s.first.results|
    ensures Disjoint(CountedFlags(s, t), RetryFlags(s, t))
  {
  }

  lemma {:induction false} AnswerableAdds<R, M>(rows: seq<R>, msg: R -> M, a: seq<bool>, b: seq<bool>, c: seq<bool>)
    requires |c| == |rows| && |a| == |rows| && Disjoint(a, b) && forall i :: 0 <= i < |c| ==> (c[i] <==> a[i] || b[i])
    ensures |Answerable(rows, msg, c)| == |Answerable(rows, msg, a)| + |Answerable(rows, msg, b)|
  {
    if rows != [] {
      var n := |rows| - 1;
      AnswerableAdds(rows[..n], msg, a[..n], b[..n], c[..n]);
    }
  }

  /** Rows with a flag that remain: as many as flags or fewer, and rows that remain. */
  lemma AnswerableBounds<R, M>(rows: seq<R>, msg: R -> M, flags: seq<bool>)
    requires |flags| == |rows|
    ensures |Answerable(rows, msg, flags)| <= Trues(flags)
    ensures |Answerable(rows, msg, flags)| <= |KeepFirst(rows, msg)|
  {
    TallyKept(rows, msg, flags, flags);
    TallyCounted(rows, msg, flags, flags);
    TallyAnswerable(rows, msg, flags, flags);
    SameFlags(rows, msg, flags);
  }

  /** When nothing straddles the boundary, the counter is right if and only if as many
      counted rows were duplicates as early retries in time remain, or more, and no other
      uncounted row remains. So with no early retry in time: no counted row was a
      duplicate, or every row that remains was counted. */
  lemma InTimeByStages<P, R, M>(cfg: Config, w: World<P, R>, t: Timing, msg: R -> M)
    requires Play(cfg, w, t).inTime <= |Play(cfg, w, t).first.results| && ByStages(Play(cfg, w, t), t)
    ensures
      var s := Play(cfg, w, t);
      var rows, counted := AllRows(s), CountedFlags(s, t);
      var retries := |Answerable(rows, msg, RetryFlags(s, t))|;
      var duplicates := Trues(counted) - |Answerable(rows, msg, counted)|;
      var uncounted := |KeepFirst(rows, msg)| - |Answerable(rows, msg, counted)|;
      && 0 <= duplicates && retries <= uncounted
      && (Counter(s, t, msg) == Documented(s, t, msg)
          <==> duplicates == retries || (duplicates > retries && uncounted == retries))
  {
    var s := Play(cfg, w, t);
    var rows, counted, inTime := AllRows(s), CountedFlags(s, t), TrueFlags(t, |AllRows(s)|);
    StagesAgree(s, t);
    RetriesUncounted(s, t);
    AnswerableAdds(rows, msg, counted, RetryFlags(s, t), inTime);
    AnswerableBounds(rows, msg, counted);
    AnswerableBounds(rows, msg, inTime);
    CountedIsInTime(s, t);
  }

  // ---- Slots where it is wrong ---------------------------------------------------------

  /** Every claim made by the main core: its results are those of the claimed prefix. */
  lemma {:induction false} MainAlone<T>(batch: seq<T>, owners: seq<Core>)
    requires |owners| <= |batch| && forall i :: 0 <= i < |owners| ==> owners[i] == Main
    ensures WorkSteal.Share(batch, owners, Main) == batch[..|owners|]
    ensures WorkSteal.Share(batch, owners, Worker) == []
  {
    if owners != [] {
      var n := |owners| - 1;
      MainAlone(batch, owners[..n]);
      assert batch[..n + 1] == batch[..n] + [batch[n]];
    }
  }

  lemma MainSplit<P, R>(batch: seq<Refined<P>>, decode: Refined<P> -> seq<R>, owners: seq<Core>)
    requires |owners| <= |batch| && forall i :: 0 <= i < |owners| ==> owners[i] == Main
    ensures
      var out := WorkSteal.Drain(decode, batch[..|owners|]);
      Stage3(batch, decode, owners) == WorkSteal.Stage3Split(out.results, out.failed, batch[|owners|..])
  {
    MainAlone(batch, owners);
    assert Claims(owners, |batch|) == owners;
    var out := WorkSteal.Drain(decode, batch[..|owners|]);
    assert out.results + [] == out.results && out.failed + [] == out.failed;
  }

  /** Three candidates, two of which carry one message. */
  function ThreeCandidates(): World<nat, nat> {
    World([3, 4, 5], (p: nat) => p, (p: nat) => true, FirstOnes, FirstOnes,
          (r: Refined<nat>) => if r.cand == 5 then [8] else [7], (r: Refined<nat>) => [])
  }

  /** Those two are claimed by the boundary, the third after it; all of it is so. */
  function TwoByTheBoundary(): Timing {
    Timing(false, false, true, [Main, Main], [Main], true, [], true, [], false, true, [], false, [true, true, false])
  }

  lemma {:induction false} FilterAll<P>(keep: P -> bool, s: seq<P>, all: bool)
    requires forall i :: 0 <= i < |s| ==> keep(s[i]) == all
    ensures Filter(keep, s) == if all then s else []
  {
    if s != [] {
      var init := s[..|s| - 1];
      FilterAll(keep, init, all);
      assert s == init + [s[|s| - 1]] && init + [] == init;
    }
  }

  lemma EveryoneReady<P, R>(w: World<P, R>, pass1: seq<P>)
    requires forall p :: w.isReady(p)
    ensures Ready(w, pass1) == pass1 && Deferred(w, pass1) == []
  {
    FilterAll(w.isReady, pass1, true);
    FilterAll((p: P) => !w.isReady(p), pass1, false);
  }

  lemma DrainOne<P, R>(decode: Refined<P> -> seq<R>, batch: seq<Refined<P>>)
    requires |batch| == 1 && decode(batch[0]) != []
    ensures WorkSteal.Drain(decode, batch) == WorkSteal.Stage3Out(decode(batch[0]), [])
  {
    assert batch[..0] == [];
    assert [] + decode(batch[0]) == decode(batch[0]);
  }

  /** A batch of one, claimed by the main core. */
  lemma OneRow<P, R>(decode: Refined<P> -> seq<R>, owners: seq<Core>, batch: seq<Refined<P>>)
    requires owners == [Main] && |batch| == 1 && decode(batch[0]) != []
    ensures Stage3(batch, decode, owners) == WorkSteal.Stage3Split(decode(batch[0]), [], [])
  {
    MainSplit(batch, decode, owners);
    assert batch[..1] == batch;
    DrainOne(decode, batch);
  }

  lemma OneFails<P, R>(decode: Refined<P> -> seq<R>, owners: seq<Core>, batch: seq<Refined<P>>)
    requires owners == [Main] && |batch| == 1 && decode(batch[0]) == []
    ensures Stage3(batch, decode, owners) == WorkSteal.Stage3Split([], batch, [])
  {
    MainSplit(batch, decode, owners);
    assert batch[..1] == batch && batch[..0] == [] && [] + [batch[0]] == batch;
  }

  lemma DrainTwo<P, R>(decode: Refined<P> -> seq<R>, batch: seq<Refined<P>>)
    requires |batch| == 2 && decode(batch[0]) != [] && decode(batch[1]) != []
    ensures WorkSteal.Drain(decode, batch) == WorkSteal.Stage3Out(decode(batch[0]) + decode(batch[1]), [])
  {
    DrainOne(decode, batch[..1]);
  }

  lemma TwoRows(w: World<nat, nat>, owners: seq<Core>, batch: seq<Refined<nat>>)
    requires w == ThreeCandidates() && owners == [Main, Main]
    requires batch == [TopK.Refined(3, 1), TopK.Refined(4, 1), TopK.Refined(5, 1)]
    ensures Stage3(batch, w.decodeEarly, owners) == WorkSteal.Stage3Split([7, 7], [], [TopK.Refined(5, 1)])
  {
    MainSplit(batch, w.decodeEarly, owners);
    DrainTwo(w.decodeEarly, batch[..2]);
  }

  lemma ThreeFirst(w: World<nat, nat>, t: Timing, batch: seq<Refined<nat>>)
    requires w == ThreeCandidates() && t == TwoByTheBoundary()
    requires batch == [TopK.Refined(3, 1), TopK.Refined(4, 1), TopK.Refined(5, 1)]
    ensures First(w, t, batch) == WorkSteal.Stage3Split([7, 7, 8], [], []) && InTimeFirst(w, t, batch) == 2
  {
    TwoRows(w, t.toBoundary, batch);
    OneRow(w.decodeEarly, t.toDeadline, [TopK.Refined(5, 1)]);
  }

  lemma ThreeSlot(cfg: Config, w: World<nat, nat>, t: Timing)
    requires cfg == Config(3, false, false) && w == ThreeCandidates() && t == TwoByTheBoundary()
    ensures
      var s := Play(cfg, w, t);
      AllRows(s) == [7, 7, 8] && s.inTime == 2 && s.lateSplit.results == [] && s.tailSplit.results == []
  {
    var pass1 := Pass1(cfg, w, t);
    EveryoneReady(w, pass1);
    ThreeFirst(w, t, EarlyBatch(cfg, w, pass1));
    NothingToTry(w.decodeEarly, t.retries);
    NothingToTry(w.decodeLate, t.late);
    NothingToTry(w.decodeLate, t.tail);
  }

  lemma KeptSnoc<R, M>(rows: seq<R>, x: R, msg: R -> M)
    ensures KeepFirst(rows + [x], msg)
         == if HasMessage(KeepFirst(rows, msg), msg, msg(x)) then KeepFirst(rows, msg) else KeepFirst(rows, msg) + [x]
  {
    assert (rows + [x])[..|rows|] == rows;
  }

  lemma AnswerableSnoc<R, M>(rows: seq<R>, x: R, msg: R -> M, inTime: seq<bool>, b: bool)
    requires |inTime| == |rows|
    ensures
      var before := Answerable(rows, msg, inTime);
      Answerable(rows + [x], msg, inTime + [b]) == if b && !HasMessage(rows, msg, msg(x)) then before + [x] else before
  {
    assert (rows + [x])[..|rows|] == rows && (inTime + [b])[..|rows|] == inTime;
  }

  lemma RowsSnoc<R, M>(rows: seq<R>, x: R, msg: R -> M, inTime: seq<bool>, b: bool, kept: seq<R>)
    requires |inTime| == |rows| && KeepFirst(rows, msg) == kept
    ensures KeepFirst(rows + [x], msg) == if HasMessage(kept, msg, msg(x)) then kept else kept + [x]
    ensures
      var before := Answerable(rows, msg, inTime);
      Answerable(rows + [x], msg, inTime + [b]) == if b && !HasMessage(kept, msg, msg(x)) then before + [x] else before
  {
    KeptSnoc(rows, x, msg);
    AnswerableSnoc(rows, x, msg, inTime, b);
    KeptMessage(rows, msg, msg(x));
  }

  lemma RowsOfThree<R, M>(x: R, y: R, msg: R -> M)
    requires msg(x) != msg(y)
    ensures
      var rows, inTime := [] + [x] + [x] + [y], [] + [true] + [true] + [false];
      KeepFirst(rows, msg) == [] + [x] + [y] && Answerable(rows, msg, inTime) == [] + [x]
  {
    RowsSnoc([], x, msg, [], true, []);
    var one := [] + [x];
    assert one[0] == x && HasMessage(one, msg, msg(x));
    RowsSnoc(one, x, msg, [] + [true], true, one);
    RowsSnoc(one + [x], y, msg, [] + [true] + [true], false, one);
  }

  lemma CountThree<P, R, M>(s: Stages<P, R>, t: Timing, msg: R -> M, x: R, y: R)
    requires AllRows(s) == [x, x, y] && InTime(s, t) == 2 && msg(x) != msg(y)
    requires t.byBoundary == [true, true, false]
    ensures Counter(s, t, msg) == 2 && Documented(s, t, msg) == 1
  {
    assert TrueFlags(t, 3) == [] + [true] + [true] + [false];
    assert [] + [x] + [x] + [y] == [x, x, y];
    RowsOfThree(x, y, msg);
  }

  lemma SaneFirstOnes(w: World<nat, nat>)
    requires w.pass2Early == w.pass2Late == FirstOnes
    ensures Sane(w)
  {
  }

  /** Two rows of one message in time and one later row: 2 are reported, 1 of the two
      rows that remain was in time. */
  lemma DuplicateCounted(cfg: Config, w: World<nat, nat>, t: Timing, msg: nat -> nat)
    requires cfg == Config(3, false, false) && w == ThreeCandidates() && t == TwoByTheBoundary()
    requires msg(7) != msg(8)
    ensures Sane(w)
    ensures
      var s := Play(cfg, w, t);
      Counter(s, t, msg) == 2 && Documented(s, t, msg) == 1
  {
    SaneFirstOnes(w);
    ThreeSlot(cfg, w, t);
    CountThree(Play(cfg, w, t), t, msg, 7, 8);
  }

  /** One candidate that decodes at its coarse position only. */
  function OneRetry(): World<nat, nat> {
    World([3], (p: nat) => 5, (p: nat) => true, FirstOnes, FirstOnes,
          (r: Refined<nat>) => if r.cand == 3 then [7] else [], (r: Refined<nat>) => [])
  }

  /** It is tried and retried long before the boundary. */
  function RetryByTheBoundary(): Timing {
    Timing(false, true, true, [Main], [], false, [Main], true, [], false, true, [], false, [true])
  }

  lemma RetryFirst(w: World<nat, nat>, t: Timing, batch: seq<Refined<nat>>)
    requires w == OneRetry() && t == RetryByTheBoundary() && batch == [TopK.Refined(5, 1)]
    ensures First(w, t, batch) == WorkSteal.Stage3Split([], batch, []) && InTimeFirst(w, t, batch) == 0
  {
    OneFails(w.decodeEarly, t.toBoundary, batch);
    NothingToTry(w.decodeEarly, t.toDeadline);
    assert batch + [] == batch;
  }

  lemma RetryRow(w: World<nat, nat>, t: Timing, retry: seq<nat>)
    requires w == OneRetry() && t == RetryByTheBoundary() && retry == [3]
    ensures Stage3(RetryBatch(w, t, retry), w.decodeEarly, t.retries) == WorkSteal.Stage3Split([7], [], [])
  {
    OneRow(w.decodeEarly, t.retries, RetryBatch(w, t, retry));
  }

  lemma RetryPass1(cfg: Config, w: World<nat, nat>, t: Timing)
    requires cfg == Config(1, false, true) && w == OneRetry() && t == RetryByTheBoundary()
    ensures Pass1(cfg, w, t) == [5] && Coarse(cfg, w, t) == [3] && Moveable(cfg, w, t) == [5]
    ensures EarlyBatch(cfg, w, Pass1(cfg, w, t)) == [TopK.Refined(5, 1)]
    ensures Deferred(w, Pass1(cfg, w, t)) == []
  {
    assert Pass1(cfg, w, t) == [5];
    EveryoneReady(w, Pass1(cfg, w, t));
  }

  lemma RetryOfFirst(w: World<nat, nat>, t: Timing)
    requires w == OneRetry() && t == RetryByTheBoundary()
    ensures RetryOf(First(w, t, [TopK.Refined(5, 1)]), [5], [3]) == [3]
  {
    RetryFirst(w, t, [TopK.Refined(5, 1)]);
    assert Positions([TopK.Refined(5, 1)]) == [5];
    SoleRetry();
  }

  lemma RetrySlot(cfg: Config, w: World<nat, nat>, t: Timing)
    requires cfg == Config(1, false, true) && w == OneRetry() && t == RetryByTheBoundary()
    ensures
      var s := Play(cfg, w, t);
      AllRows(s) == [7] && InTime(s, t) == 0
  {
    RetryPass1(cfg, w, t);
    RetryFirst(w, t, [TopK.Refined(5, 1)]);
    RetryOfFirst(w, t);
    RetryRow(w, t, [3]);
    NothingToTry(w.decodeLate, t.late);
    NothingRetried(Stage3([], w.decodeLate, t.late), [5], [3]);
    NothingToTry(w.decodeLate, t.tail);
  }

  lemma CountOnly<P, R, M>(s: Stages<P, R>, t: Timing, msg: R -> M, x: R, b: bool)
    requires AllRows(s) == [x] && t.byBoundary == [b]
    ensures Counter(s, t, msg) == Min(InTime(s, t), 1) && Documented(s, t, msg) == if b then 1 else 0
  {
    assert TrueFlags(t, 1) == [] + [b] && [] + [x] == [x];
    RowsSnoc([], x, msg, [], b, []);
  }

  /** An early retry decoded before the boundary: 0 are reported. */
  lemma RetryNotCounted(cfg: Config, w: World<nat, nat>, t: Timing, msg: nat -> nat)
    requires cfg == Config(1, false, true) && w == OneRetry() && t == RetryByTheBoundary()
    ensures Sane(w)
    ensures
      var s := Play(cfg, w, t);
      Counter(s, t, msg) == 0 && Documented(s, t, msg) == 1
  {
    SaneFirstOnes(w);
    RetrySlot(cfg, w, t);
    CountOnly(Play(cfg, w, t), t, msg, 7, true);
  }

  /** One ready candidate that decodes. */
  function OneDecode(): World<nat, nat> {
    World([3], (p: nat) => p, (p: nat) => true, FirstOnes, FirstOnes, (r: Refined<nat>) => [7], (r: Refined<nat>) => [])
  }

  /** The boundary lies at or past the deadline, so the batch is not split; it ends in
      time. */
  function UnsplitInTime(): Timing {
    Timing(false, false, false, [], [Main], true, [], true, [], false, true, [], false, [true])
  }

  /** Claimed by the boundary, and still being decoded at it. */
  function Straddling(): Timing {
    Timing(false, false, true, [Main], [], true, [], true, [], false, true, [], false, [false])
  }

  lemma DecodeFirst(w: World<nat, nat>, t: Timing, batch: seq<Refined<nat>>)
    requires w == OneDecode() && (t == UnsplitInTime() || t == Straddling()) && batch == [TopK.Refined(3, 1)]
    ensures First(w, t, batch) == WorkSteal.Stage3Split([7], [], [])
    ensures InTimeFirst(w, t, batch) == if t.boundaryAhead then 1 else 0
  {
    if t.boundaryAhead {
      OneRow(w.decodeEarly, t.toBoundary, batch);
      NothingToTry(w.decodeEarly, t.toDeadline);
    } else {
      OneRow(w.decodeEarly, t.toDeadline, batch);
    }
  }

  lemma DecodePass1(cfg: Config, w: World<nat, nat>, t: Timing)
    requires cfg == Config(1, false, false) && w == OneDecode() && (t == UnsplitInTime() || t == Straddling())
    ensures EarlyBatch(cfg, w, Pass1(cfg, w, t)) == [TopK.Refined(3, 1)] && Deferred(w, Pass1(cfg, w, t)) == []
    ensures Moveable(cfg, w, t) == [] && Coarse(cfg, w, t) == []
  {
    assert Pass1(cfg, w, t) == [3];
    EveryoneReady(w, Pass1(cfg, w, t));
  }

  lemma DecodeStages(cfg: Config, w: World<nat, nat>, t: Timing)
    requires cfg == Config(1, false, false) && w == OneDecode() && (t == UnsplitInTime() || t == Straddling())
    ensures
      var s := Play(cfg, w, t);
      && s.first.results == [7] && s.retried.results == [] && s.lateSplit.results == [] && s.tailSplit.results == []
      && s.inTime == if t.boundaryAhead then 1 else 0
  {
    DecodePass1(cfg, w, t);
    DecodeFirst(w, t, [TopK.Refined(3, 1)]);
    NothingRetried(First(w, t, [TopK.Refined(3, 1)]), [], []);
    NothingToTry(w.decodeEarly, t.retries);
    NothingToTry(w.decodeLate, t.late);
    NothingRetried(Stage3([], w.decodeLate, t.late), [], []);
    NothingToTry(w.decodeLate, t.tail);
  }

  lemma DecodeSlot(cfg: Config, w: World<nat, nat>, t: Timing)
    requires cfg == Config(1, false, false) && w == OneDecode() && (t == UnsplitInTime() || t == Straddling())
    ensures
      var s := Play(cfg, w, t);
      AllRows(s) == [7] && InTime(s, t) == if t.boundaryAhead then 1 else 0
  {
    DecodeStages(cfg, w, t);
    SoleRows(Play(cfg, w, t), t);
  }

  lemma SoleRows<P, R>(s: Stages<P, R>, t: Timing)
    requires s.retried.results == [] && s.lateSplit.results == [] && s.tailSplit.results == []
    ensures AllRows(s) == s.first.results && InTime(s, t) == s.inTime
  {
  }

  /** A batch not split at the boundary counts nothing, though its row was in time. */
  lemma UnsplitNotCounted(cfg: Config, w: World<nat, nat>, t: Timing, msg: nat -> nat)
    requires cfg == Config(1, false, false) && w == OneDecode() && t == UnsplitInTime()
    ensures
      var s := Play(cfg, w, t);
      Counter(s, t, msg) == 0 && Documented(s, t, msg) == 1
  {
    DecodeSlot(cfg, w, t);
    CountOnly(Play(cfg, w, t), t, msg, 7, true);
  }

  /** A row claimed by the boundary is counted, though it ended after it. */
  lemma StraddlingCounted(cfg: Config, w: World<nat, nat>, t: Timing, msg: nat -> nat)
    requires cfg == Config(1, false, false) && w == OneDecode() && t == Straddling()
    ensures
      var s := Play(cfg, w, t);
      Counter(s, t, msg) == 1 && Documented(s, t, msg) == 0
  {
    DecodeSlot(cfg, w, t);
    CountOnly(Play(cfg, w, t), t, msg, 7, false);
  }
}

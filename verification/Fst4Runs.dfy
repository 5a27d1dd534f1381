/** What the batches of Fst4Batches can do and must do: every legal outcome is the
    outcome of some run with a clock that only runs forward, no batch gets stuck or runs
    for ever, and the rank-sorted result of a batch with a deadline is one core's list
    of the claimed indices less the lost ones. */
module Fst4Runs {

  import opened Common
  import opened Fst4Batches

  lemma RunSnoc<R>(es: seq<Event<R>>, e: Event<R>)
    requires Run(es).Some? && Enabled(Run(es).value, e)
    ensures Run(es + [e]) == Some(Step(Run(es).value, e))
  {
    assert (es + [e])[..|es|] == es;
  }

  /** Three events from state to state. */
  lemma RunThree<R>(es: seq<Event<R>>, s: State<R>, a: Event<R>, t: State<R>, b: Event<R>, u: State<R>, c: Event<R>, v: State<R>)
    requires Run(es) == Some(s) && Enabled(s, a) && Step(s, a) == t
    requires Enabled(t, b) && Step(t, b) == u && Enabled(u, c) && Step(u, c) == v
    ensures Run(es + [a, b, c]) == Some(v)
  {
    RunSnoc(es, a);
    RunSnoc(es + [a], b);
    RunSnoc((es + [a]) + [b], c);
    assert es + [a, b, c] == ((es + [a]) + [b]) + [c];
  }

  lemma RunTwo<R>(es: seq<Event<R>>, s: State<R>, a: Event<R>, t: State<R>, b: Event<R>, u: State<R>)
    requires Run(es) == Some(s) && Enabled(s, a) && Step(s, a) == t && Enabled(t, b) && Step(t, b) == u
    ensures Run(es + [a, b]) == Some(u)
  {
    RunSnoc(es, a);
    RunSnoc(es + [a], b);
    assert es + [a, b] == (es + [a]) + [b];
  }

  lemma RunPrefix<R>(es: seq<Event<R>>, e: Event<R>)
    requires Run(es + [e]).Some?
    ensures Run(es).Some? && Enabled(Run(es).value, e) && Run(es + [e]) == Some(Step(Run(es).value, e))
  {
    assert (es + [e])[..|es|] == es;
  }

  // ---- Every legal outcome is reachable ---------------------------------------------------

  /** Once the clock has passed the deadline it stays past it. */
  predicate ClockRuns<R>(es: seq<Event<R>>) {
    forall i, j :: 0 <= i < j < |es| && es[i].Move? && es[j].Move? && es[i].late ==> es[j].late
  }

  predicate NeverLate<R>(es: seq<Event<R>>) {
    forall i :: 0 <= i < |es| && es[i].Move? ==> !es[i].late
  }

  function LostBy<R>(o: Outcome<R>, c: Core): bool {
    if c == Main then o.mainLost else o.workerLost
  }

  /** Core `c` has made its last claim, which it will lose. */
  predicate Halted<R>(o: Outcome<R>, c: Core, k: nat)
    requires k <= |o.owners|
  {
    LostBy(o, c) && Claims(o.owners, c) != [] && Claims(o.owners[..k], c) == Claims(o.owners, c)
  }

  /** Where core `c` stands once the first `k` claims have been made and worked, but for
      the claims that are to be lost: those wait for the clock. */
  function AtOf<R>(o: Outcome<R>, c: Core, k: nat): Drain
    requires k <= |o.owners|
  {
    if Halted(o, c, k) then Checking(Claims(o.owners, c)[|Claims(o.owners, c)| - 1]) else Claiming
  }

  function OutOf<R>(o: Outcome<R>, c: Core, k: nat): seq<R>
    requires k <= |o.owners|
  {
    Collect(o.batch.work, Worked(o.owners[..k], c, Halted(o, c, k)))
  }

  function Mid<R>(o: Outcome<R>, base: State<R>, k: nat): State<R>
    requires k <= |o.owners|
  {
    base.(nextIdx := k, jobs := [], tokens := 0, owners := o.owners[..k],
          main := Draining(o.batch, AtOf(o, Main, k), OutOf(o, Main, k)),
          worker := Busy(o.batch, AtOf(o, Worker, k), OutOf(o, Worker, k)))
  }

  lemma {:induction false} ClaimsGrow(owners: seq<Core>, c: Core, k: nat)
    requires k <= |owners|
    ensures Claims(owners[..k], c) <= Claims(owners, c)
    decreases |owners|
  {
    if k == |owners| {
      assert owners[..k] == owners;
    } else {
      ClaimsGrow(owners[..|owners| - 1], c, k);
      assert owners[..|owners| - 1][..k] == owners[..k];
    }
  }

  /** The core that makes claim `k` had not made its last claim. */
  lemma NotHalted<R>(o: Outcome<R>, k: nat)
    requires k < |o.owners|
    ensures !Halted(o, o.owners[k], k)
    ensures Claims(o.owners[..k + 1], o.owners[k]) == Claims(o.owners[..k], o.owners[k]) + [k]
  {
    var c := o.owners[k];
    assert o.owners[..k + 1] == o.owners[..k] + [c];
    ClaimsSnoc(o.owners[..k], c, c);
    ClaimsGrow(o.owners, c, k + 1);
  }

  lemma OtherUnmoved<R>(o: Outcome<R>, c: Core, k: nat)
    requires k < |o.owners| && o.owners[k] != c
    ensures AtOf(o, c, k + 1) == AtOf(o, c, k) && OutOf(o, c, k + 1) == OutOf(o, c, k)
  {
    assert o.owners[..k + 1] == o.owners[..k] + [o.owners[k]];
    ClaimsSnoc(o.owners[..k], o.owners[k], c);
    assert Claims(o.owners[..k + 1], c) == Claims(o.owners[..k], c);
  }

  /** What claim `k` leaves of its own core. */
  lemma OwnMoved<R>(o: Outcome<R>, k: nat)
    requires k < |o.owners|
    ensures
      var c := o.owners[k];
      && AtOf(o, c, k) == Claiming
      && if Halted(o, c, k + 1) then AtOf(o, c, k + 1) == Checking(k) && OutOf(o, c, k + 1) == OutOf(o, c, k)
         else AtOf(o, c, k + 1) == Claiming && OutOf(o, c, k + 1) == OutOf(o, c, k) + Reported(o.batch.work(k))
  {
    NotHalted(o, k);
    var c := o.owners[k];
    var cs := Claims(o.owners[..k], c);
    assert (cs + [k])[..|cs|] == cs;
  }

  /** One move of core `c`, as it changes a state of the schedule. */
  function Placed<R>(o: Outcome<R>, s: State<R>, c: Core, at: Drain, out: seq<R>): State<R> {
    if c == Main then s.(main := Draining(o.batch, at, out)) else s.(worker := Busy(o.batch, at, out))
  }

  /** The moves that make claim `k`. */
  function Turn<R>(o: Outcome<R>, k: nat): seq<Event<R>>
    requires k < |o.owners|
  {
    var c := o.owners[k];
    if Halted(o, c, k + 1) then [Move(c, false)] else [Move(c, false), Move(c, false), Move(c, false)]
  }

  function Turns<R>(o: Outcome<R>, k: nat): seq<Event<R>>
    requires k <= |o.owners|
  {
    if k == 0 then [] else Turns(o, k - 1) + Turn(o, k - 1)
  }

  /** The state in which claim `k` has been made but nothing else has changed. */
  function ClaimedIn<R>(o: Outcome<R>, base: State<R>, k: nat): State<R>
    requires k < |o.owners|
  {
    Mid(o, base, k).(nextIdx := k + 1, owners := o.owners[..k + 1])
  }

  lemma ClaimMoves<R>(o: Outcome<R>, s: State<R>, c: Core, k: nat, out: seq<R>)
    requires s.main.Draining? && s.worker.Busy? && s.nextIdx == k < o.batch.n
    ensures
      var claiming := Placed(o, s, c, Claiming, out);
      && Enabled(claiming, Move(c, false))
      && Step(claiming, Move(c, false)) == Placed(o, s.(nextIdx := k + 1, owners := s.owners + [c]), c, Checking(k), out)
  {
    if c == Main {
    } else {
    }
  }

  lemma ClaimStep<R>(o: Outcome<R>, base: State<R>, k: nat)
    requires Legal(o) && k < |o.owners|
    ensures
      var c := o.owners[k];
      && Enabled(Mid(o, base, k), Move(c, false))
      && Step(Mid(o, base, k), Move(c, false)) == Placed(o, ClaimedIn(o, base, k), c, Checking(k), OutOf(o, c, k))
  {
    var c := o.owners[k];
    OwnMoved(o, k);
    ClaimMoves(o, Mid(o, base, k), c, k, OutOf(o, c, k));
    TakeSnoc(o.owners, k);
    assert Placed(o, Mid(o, base, k), c, Claiming, OutOf(o, c, k)) == Mid(o, base, k);
  }

  lemma MidNext<R>(o: Outcome<R>, base: State<R>, k: nat)
    requires k < |o.owners|
    ensures
      var c := o.owners[k];
      Mid(o, base, k + 1) == Placed(o, ClaimedIn(o, base, k), c, AtOf(o, c, k + 1), OutOf(o, c, k + 1))
  {
    OtherUnmoved(o, if o.owners[k] == Main then Worker else Main, k);
  }

  /** Core `c` checks the clock in time, then works its claim. */
  lemma WorkSteps<R>(o: Outcome<R>, s: State<R>, c: Core, k: nat, out: seq<R>)
    requires s.main.Draining? && s.worker.Busy?
    ensures
      var checking, working := Placed(o, s, c, Checking(k), out), Placed(o, s, c, Working(k), out);
      && Enabled(checking, Move(c, false)) && Step(checking, Move(c, false)) == working
      && Enabled(working, Move(c, false))
      && Step(working, Move(c, false)) == Placed(o, s, c, Claiming, out + Reported(o.batch.work(k)))
  {
    if c == Main {
    } else {
    }
  }

  lemma TurnRuns<R>(es: seq<Event<R>>, o: Outcome<R>, base: State<R>, k: nat)
    requires Legal(o) && k < |o.owners| && Run(es) == Some(Mid(o, base, k))
    ensures Run(es + Turn(o, k)) == Some(Mid(o, base, k + 1))
  {
    var c := o.owners[k];
    ClaimStep(o, base, k);
    OwnMoved(o, k);
    MidNext(o, base, k);
    if Halted(o, c, k + 1) {
      RunSnoc(es, Move(c, false));
    } else {
      var claimed, out := ClaimedIn(o, base, k), OutOf(o, c, k);
      WorkSteps(o, claimed, c, k, out);
      RunThree(es, Mid(o, base, k), Move(c, false), Placed(o, claimed, c, Checking(k), out),
               Move(c, false), Placed(o, claimed, c, Working(k), out), Move(c, false), Mid(o, base, k + 1));
    }
  }

  lemma Concat<T>(a: seq<T>, b: seq<T>, c: seq<T>)
    ensures a + (b + c) == (a + b) + c
  {
  }

  lemma {:induction false} TurnsRun<R>(es: seq<Event<R>>, o: Outcome<R>, base: State<R>, k: nat)
    requires Legal(o) && k <= |o.owners| && Run(es) == Some(Mid(o, base, 0))
    ensures Run(es + Turns(o, k)) == Some(Mid(o, base, k))
  {
    if k == 0 {
      assert es + Turns(o, 0) == es;
    } else {
      TurnsRun(es, o, base, k - 1);
      TurnRuns(es + Turns(o, k - 1), o, base, k - 1);
      Concat(es, Turns(o, k - 1), Turn(o, k - 1));
    }
  }

  lemma {:induction false} TurnsNeverLate<R>(o: Outcome<R>, k: nat)
    requires k <= |o.owners|
    ensures NeverLate(Turns(o, k))
  {
    if k > 0 {
      TurnsNeverLate(o, k - 1);
    }
  }

  lemma StartSteps<R>(s: State<R>, b: Batch<R>)
    requires s.main.Outside? && Quiet(s)
    ensures
      var sending := s.(main := Sending(b), nextIdx := 0, owners := []);
      var posted := sending.(main := Draining(b, Claiming, []), jobs := [b]);
      && Enabled(s, Call(b)) && Step(s, Call(b)) == sending
      && Enabled(sending, Post) && Step(sending, Post) == posted
      && Enabled(posted, Receive) && Step(posted, Receive) == posted.(worker := Busy(b, Claiming, []), jobs := [])
  {
    assert [] + [b] == [b] && [b][1..] == [];
  }

  lemma MidStart<R>(o: Outcome<R>, c: Core)
    ensures AtOf(o, c, 0) == Claiming && OutOf(o, c, 0) == []
  {
    assert o.owners[..0] == [];
  }

  /** Between batches, a batch starts. */
  lemma StartRuns<R>(es: seq<Event<R>>, o: Outcome<R>)
    requires Run(es).Some? && Run(es).value.main.Outside?
    ensures Run(es + [Call(o.batch), Post, Receive]) == Some(Mid(o, Run(es).value, 0))
  {
    BatchesDoNotOverlap(es);
    var s, b := Run(es).value, o.batch;
    StartSteps(s, b);
    var sending := s.(main := Sending(b), nextIdx := 0, owners := []);
    var posted := sending.(main := Draining(b, Claiming, []), jobs := [b]);
    RunThree(es, s, Call(b), sending, Post, posted, Receive, posted.(worker := Busy(b, Claiming, []), jobs := []));
    MidStart(o, Main);
    MidStart(o, Worker);
    assert o.owners[..0] == [];
  }

  /** All claims made: the clock passes the deadline, and both cores leave, each losing
      its last claim or finding the indices used up. */
  function LeftMain<R>(o: Outcome<R>, base: State<R>): State<R> {
    var mid, n := Mid(o, base, |o.owners|), |o.owners|;
    mid.(main := Draining(o.batch, Finished(o.mainLost), OutOf(o, Main, n)), nextIdx := if o.mainLost then n else n + 1)
  }

  function LeftBoth<R>(o: Outcome<R>, base: State<R>): State<R> {
    var s, n := LeftMain(o, base), |o.owners|;
    s.(worker := Busy(o.batch, Finished(o.workerLost), OutOf(o, Worker, n)),
       nextIdx := if o.workerLost then s.nextIdx else s.nextIdx + 1)
  }

  lemma LostHadOne<R>(o: Outcome<R>, c: Core)
    requires Legal(o)
    ensures LostBy(o, c) ==> o.batch.timed && Claims(o.owners, c) != []
    ensures (LostBy(o, Main) && LostBy(o, Worker)) || |o.owners| == o.batch.n
  {
  }

  lemma AtEnd<R>(o: Outcome<R>, c: Core)
    requires LostBy(o, c) ==> Claims(o.owners, c) != []
    ensures
      var n, cs := |o.owners|, Claims(o.owners, c);
      && OutOf(o, c, n) == Collect(o.batch.work, Worked(o.owners, c, LostBy(o, c)))
      && if LostBy(o, c) then cs != [] && AtOf(o, c, n) == Checking(cs[|cs| - 1]) else AtOf(o, c, n) == Claiming
  {
    assert o.owners[..|o.owners|] == o.owners;
  }

  lemma LeaveSteps<R>(o: Outcome<R>, base: State<R>)
    requires Legal(o)
    ensures
      var mid := Mid(o, base, |o.owners|);
      && Enabled(mid, Move(Main, true)) && Step(mid, Move(Main, true)) == LeftMain(o, base)
      && Enabled(LeftMain(o, base), Move(Worker, true))
      && Step(LeftMain(o, base), Move(Worker, true)) == LeftBoth(o, base)
  {
    LostHadOne(o, Main);
    LostHadOne(o, Worker);
    AtEnd(o, Main);
    AtEnd(o, Worker);
    assert o.owners + [] == o.owners && o.owners[..|o.owners|] == o.owners;
  }

  lemma ReturnSteps<R>(o: Outcome<R>, base: State<R>) returns (t: State<R>, u: State<R>)
    requires Legal(o)
    ensures Enabled(LeftBoth(o, base), Token) && Step(LeftBoth(o, base), Token) == t
    ensures Enabled(t, Return) && Step(t, Return) == u
    ensures u.main.Outside? && u.done == base.done + [o]
  {
    LostHadOne(o, Main);
    LostHadOne(o, Worker);
    AtEnd(o, Main);
    AtEnd(o, Worker);
    assert o.owners[..|o.owners|] == o.owners;
    t := Step(LeftBoth(o, base), Token);
    u := Step(t, Return);
  }

  lemma EndRuns<R>(es: seq<Event<R>>, o: Outcome<R>, base: State<R>)
    requires Legal(o) && Run(es) == Some(Mid(o, base, |o.owners|))
    ensures
      var end := (es + [Move(Main, true), Move(Worker, true)]) + [Token, Return];
      Run(end).Some? && Run(end).value.main.Outside? && Run(end).value.done == base.done + [o]
  {
    LeaveSteps(o, base);
    var t, u := ReturnSteps(o, base);
    RunTwo(es, Mid(o, base, |o.owners|), Move(Main, true), LeftMain(o, base), Move(Worker, true), LeftBoth(o, base));
    RunTwo(es + [Move(Main, true), Move(Worker, true)], LeftBoth(o, base), Token, t, Return, u);
  }

  lemma ThenLate<R>(a: seq<Event<R>>, b: seq<Event<R>>)
    requires NeverLate(a) && forall i :: 0 <= i < |b| && b[i].Move? ==> b[i].late
    ensures ClockRuns(a + b)
  {
  }

  lemma Regrouped<T>(es: seq<T>, a: seq<T>, b: seq<T>, c: seq<T>, d: seq<T>)
    ensures es + ((a + b) + (c + d)) == (((es + a) + b) + c) + d
  {
  }

  /** Whatever has run before, every legal outcome of a next batch is the outcome of
      some run, in which the clock passes the deadline at most once. */
  lemma OutcomeIsReachable<R>(es: seq<Event<R>>, o: Outcome<R>) returns (more: seq<Event<R>>)
    requires Legal(o) && Run(es).Some? && Run(es).value.main.Outside?
    ensures Run(es + more).Some? && Run(es + more).value.main.Outside?
    ensures Run(es + more).value.done == Run(es).value.done + [o]
    ensures ClockRuns(more)
  {
    more := Whole(o);
    WholeRuns(es, o, [Call(o.batch), Post, Receive], [Move(Main, true), Move(Worker, true)], [Token, Return]);
    WholeOnTime(o);
  }

  function Whole<R>(o: Outcome<R>): seq<Event<R>> {
    ([Call(o.batch), Post, Receive] + Turns(o, |o.owners|)) + ([Move(Main, true), Move(Worker, true)] + [Token, Return])
  }

  lemma WholeOnTime<R>(o: Outcome<R>)
    ensures ClockRuns(Whole(o))
  {
    TurnsNeverLate(o, |o.owners|);
    ThenLate([Call(o.batch), Post, Receive] + Turns(o, |o.owners|), [Move(Main, true), Move(Worker, true)] + [Token, Return]);
  }

  lemma WholeRuns<R>(es: seq<Event<R>>, o: Outcome<R>, begin: seq<Event<R>>, leave: seq<Event<R>>, end: seq<Event<R>>)
    requires Legal(o) && Run(es).Some? && Run(es).value.main.Outside?
    requires begin == [Call(o.batch), Post, Receive] && leave == [Move(Main, true), Move(Worker, true)]
    requires end == [Token, Return]
    ensures
      var s := Run(es + ((begin + Turns(o, |o.owners|)) + (leave + end)));
      s.Some? && s.value.main.Outside? && s.value.done == Run(es).value.done + [o]
  {
    StartRuns(es, o);
    TurnsRun(es + begin, o, Run(es).value, |o.owners|);
    EndRuns((es + begin) + Turns(o, |o.owners|), o, Run(es).value);
    Regrouped(es, begin, Turns(o, |o.owners|), leave, end);
  }

  // ---- No batch gets stuck ------------------------------------------------------------------

  /** Something can always happen, and inside a batch it is not a new call. */
  lemma SomethingCanHappen<R>(es: seq<Event<R>>, b: Batch<R>) returns (e: Event<R>)
    requires Run(es).Some?
    ensures Enabled(Run(es).value, e) && (e.Call? <==> Run(es).value.main.Outside?)
  {
    RunInv(es);
    var s := Run(es).value;
    if s.main.Outside? {
      e := Call(b);
    } else if s.main.Sending? {
      e := Post;
    } else if !s.main.at.Finished? {
      e := Move(Main, false);
    } else if s.tokens > 0 {
      e := Return;
    } else if s.worker.Waiting? {
      e := Receive;
    } else if s.worker.at.Finished? {
      e := Token;
    } else {
      e := Move(Worker, false);
    }
  }

  function DrainLeft(at: Drain): nat {
    match at
    case Claiming => 1
    case Checking(_) => 3
    case Working(_) => 2
    case Finished(_) => 0
  }

  /** An upper bound on the events before the batch in hand returns. */
  function Left<R>(s: State<R>): nat {
    match s.main
    case Outside => 0
    case Sending(b) => 3 * b.n + 6
    case Draining(b, at, _) =>
      3 * (b.n - Min(s.nextIdx, b.n)) + DrainLeft(at) + 1
      + match s.worker
        case Busy(_, at', _) => DrainLeft(at') + 1
        case Waiting => if s.jobs != [] then 3 else 0
  }

  lemma EveryEventCounts<R>(s: State<R>, e: Event<R>)
    requires Inv(s) && Enabled(s, e) && !e.Call?
    ensures Left(Step(s, e)) < Left(s)
  {
    match e
    case Move(Main, late) =>
    case Move(Worker, late) =>
    case _ =>
  }

  /** A batch of `n` items returns within 3n + 6 events of its call, whatever order
      they come in. */
  lemma {:induction false} BatchesReturn<R>(es: seq<Event<R>>, b: Batch<R>, more: seq<Event<R>>)
    requires Run((es + [Call(b)]) + more).Some?
    requires forall i :: 0 <= i < |more| ==> !more[i].Call?
    ensures |more| + Left(Run((es + [Call(b)]) + more).value) <= 3 * b.n + 6
  {
    if more == [] {
      assert (es + [Call(b)]) + more == es + [Call(b)];
      RunPrefix(es, Call(b));
    } else {
      var init, e := more[..|more| - 1], more[|more| - 1];
      assert (es + [Call(b)]) + more == ((es + [Call(b)]) + init) + [e];
      RunPrefix((es + [Call(b)]) + init, e);
      BatchesReturn(es, b, init);
      RunInv((es + [Call(b)]) + init);
      EveryEventCounts(Run((es + [Call(b)]) + init).value, e);
    }
  }

  // ---- With a deadline -----------------------------------------------------------------------

  /** The claimed indices below `n` that no core lost, ascending. */
  function Survivors<R>(o: Outcome<R>, n: nat): seq<nat> {
    if n == 0 then []
    else if LostAt(o, n - 1) then Survivors(o, n - 1)
    else Survivors(o, n - 1) + [n - 1]
  }

  predicate LostAt<R>(o: Outcome<R>, i: nat) {
    Lost(o.owners, Main, o.mainLost, i) || Lost(o.owners, Worker, o.workerLost, i)
  }

  lemma {:induction false} SurvivorsAre<R>(o: Outcome<R>, n: nat)
    ensures forall i: nat :: i in Survivors(o, n) <==> i < n && !LostAt(o, i)
  {
    if n > 0 {
      SurvivorsAre(o, n - 1);
    }
  }

  lemma {:induction false} SurvivorsAscend<R>(o: Outcome<R>, n: nat)
    ensures forall j, k :: 0 <= j < k < |Survivors(o, n)| ==> Survivors(o, n)[j] < Survivors(o, n)[k]
  {
    if n > 0 {
      SurvivorsAscend(o, n - 1);
      SurvivorsAre(o, n - 1);
      var before := Survivors(o, n - 1);
      forall j | 0 <= j < |before| ensures before[j] < n - 1 {
        assert before[j] in before;
      }
    }
  }

  lemma CollectSnoc<R>(work: nat -> Option<R>, a: seq<nat>, x: nat)
    ensures Collect(work, a + [x]) == Collect(work, a) + Reported(work(x))
  {
    assert (a + [x])[..|a|] == a;
  }

  lemma CollectConcatSnoc<R>(work: nat -> Option<R>, a: seq<nat>, b: seq<nat>, x: nat)
    requires Collect(work, a + b) == Collect(work, a) + Collect(work, b)
    ensures Collect(work, a + (b + [x])) == Collect(work, a) + Collect(work, b + [x])
  {
    Concat(a, b, [x]);
    CollectSnoc(work, a + b, x);
    CollectSnoc(work, b, x);
    Concat(Collect(work, a), Collect(work, b), Reported(work(x)));
  }

  lemma {:induction false} CollectConcat<R>(work: nat -> Option<R>, a: seq<nat>, b: seq<nat>)
    ensures Collect(work, a + b) == Collect(work, a) + Collect(work, b)
  {
    if b == [] {
      assert a + b == a;
    } else {
      var init, x := b[..|b| - 1], b[|b| - 1];
      CollectConcat(work, a, init);
      CollectConcatSnoc(work, a, init, x);
      assert b == init + [x];
    }
  }

  lemma BagConcat<R>(work: nat -> Option<R>, a: seq<nat>, b: seq<nat>)
    ensures Bag(work, a + b) == Bag(work, a) + Bag(work, b)
  {
    CollectConcat(work, a, b);
    BagIsCollect(work, a);
    BagIsCollect(work, b);
    BagIsCollect(work, a + b);
    MultisetConcat(Collect(work, a), Collect(work, b));
  }

  lemma BagExtract<R>(work: nat -> Option<R>, a: seq<nat>, x: nat, b: seq<nat>)
    ensures Bag(work, (a + [x]) + b) == Bag(work, a + b) + multiset(Reported(work(x)))
  {
    BagConcat(work, a + [x], b);
    BagSnoc(work, a, x);
    BagConcat(work, a, b);
    MultisetSwap(Bag(work, a), multiset(Reported(work(x))), Bag(work, b));
  }

  lemma TakeOut(s: seq<nat>, x: nat) returns (a: seq<nat>, b: seq<nat>)
    requires x in multiset(s)
    ensures s == (a + [x]) + b && multiset(a + b) == multiset(s) - multiset{x}
  {
    assert x in s;
    var m :| 0 <= m < |s| && s[m] == x;
    a, b := s[..m], s[m + 1..];
    assert s == (a + [x]) + b;
  }

  /** The results depend on which indices are worked, not on their order. */
  lemma {:induction false} BagPermutes<R>(work: nat -> Option<R>, s: seq<nat>, t: seq<nat>)
    requires multiset(s) == multiset(t)
    ensures Bag(work, s) == Bag(work, t)
    decreases |s|
  {
    SameSize(s, t);
    if s != [] {
      var init, x := s[..|s| - 1], s[|s| - 1];
      MultisetInit(s);
      assert x in multiset(s);
      var a, b := TakeOut(t, x);
      BagPermutes(work, init, a + b);
      BagExtract(work, a, x, b);
    }
  }

  lemma WorkedOnce<R>(o: Outcome<R>, i: nat)
    requires Legal(o)
    ensures multiset(Worked(o.owners, Main, o.mainLost))[i] + multiset(Worked(o.owners, Worker, o.workerLost))[i]
         == multiset(Survivors(o, |o.owners|))[i]
  {
    SurvivorsAre(o, |o.owners|);
    SurvivorsAscend(o, |o.owners|);
    WorkedCount(o.owners, Main, o.mainLost, i);
    WorkedCount(o.owners, Worker, o.workerLost, i);
    AscendingCount(Survivors(o, |o.owners|), i);
  }

  /** The two cores together worked exactly the survivors. */
  lemma WorkedAreSurvivors<R>(o: Outcome<R>)
    requires Legal(o)
    ensures multiset(Worked(o.owners, Main, o.mainLost) + Worked(o.owners, Worker, o.workerLost))
         == multiset(Survivors(o, |o.owners|))
  {
    var m: multiset<nat> := multiset(Worked(o.owners, Main, o.mainLost));
    var w: multiset<nat> := multiset(Worked(o.owners, Worker, o.workerLost));
    var s: multiset<nat> := multiset(Survivors(o, |o.owners|));
    forall i: nat ensures m[i] + w[i] == s[i] {
      WorkedOnce(o, i);
    }
    SumsAgree(m, w, s);
    MultisetConcat(Worked(o.owners, Main, o.mainLost), Worked(o.owners, Worker, o.workerLost));
  }

  lemma SumsAgree(a: multiset<nat>, b: multiset<nat>, c: multiset<nat>)
    requires forall i: nat :: a[i] + b[i] == c[i]
    ensures a + b == c
  {
  }

  lemma {:induction false} CollectOfAscending<R>(b: Batch<R>, rank: R -> nat, items: seq<nat>)
    requires RanksItself(b, rank) && forall j :: 0 <= j < |items| ==> items[j] < b.n
    requires forall j, k :: 0 <= j < k < |items| ==> items[j] < items[k]
    ensures forall j, k :: 0 <= j < k < |Collect(b.work, items)| ==>
      rank(Collect(b.work, items)[j]) < rank(Collect(b.work, items)[k])
    ensures forall r :: r in Collect(b.work, items) ==> items != [] && rank(r) <= items[|items| - 1]
  {
    if items != [] {
      CollectOfAscending(b, rank, items[..|items| - 1]);
    }
  }

  lemma LostIsItsCores<R>(o: Outcome<R>, c: Core, i: nat)
    requires Lost(o.owners, c, LostBy(o, c), i)
    ensures i < |o.owners| && o.owners[i] == c
  {
    ClaimBelow(o.owners, c, |Claims(o.owners, c)| - 1);
  }

  /** No index is lost by both cores. */
  lemma {:induction false} SurvivorsCount<R>(o: Outcome<R>, n: nat)
    requires n <= |o.owners|
    ensures |Survivors(o, n)| + LostBelow(o, Main, n) + LostBelow(o, Worker, n) == n
  {
    if n > 0 {
      SurvivorsCount(o, n - 1);
      if Lost(o.owners, Main, o.mainLost, n - 1) {
        LostIsItsCores(o, Main, n - 1);
      }
      if Lost(o.owners, Worker, o.workerLost, n - 1) {
        LostIsItsCores(o, Worker, n - 1);
      }
    }
  }

  lemma LostOnce<R>(o: Outcome<R>, c: Core)
    requires Legal(o)
    ensures LostBelow(o, c, |o.owners|) == if LostBy(o, c) then 1 else 0
  {
    LostHadOne(o, c);
    if LostBy(o, c) {
      ClaimBelow(o.owners, c, |Claims(o.owners, c)| - 1);
    }
  }

  /** How many claims of core `c` below `n` are lost: none or one. */
  function LostBelow<R>(o: Outcome<R>, c: Core, n: nat): (r: nat)
    ensures r <= 1
  {
    var cs := Claims(o.owners, c);
    if LostBy(o, c) && cs != [] && cs[|cs| - 1] < n then 1 else 0
  }

  /** With a deadline the rank-sorted result is the list one core would return of a
      prefix of the indices, less exactly one index for each core the deadline
      stopped. Without one it is `UntimedEqualsSingleCore`. */
  lemma TimedIsAPrefixLessTwo<R>(o: Outcome<R>, rank: R -> nat, sorted: seq<R>)
    requires Legal(o) && RanksItself(o.batch, rank)
    requires SortedByRank(rank, sorted) && multiset(sorted) == multiset(o.results)
    ensures sorted == Collect(o.batch.work, Survivors(o, |o.owners|))
    ensures |Survivors(o, |o.owners|)| + (if o.mainLost then 1 else 0) + (if o.workerLost then 1 else 0) == |o.owners|
    ensures !o.mainLost && !o.workerLost ==> Survivors(o, |o.owners|) == Upto(o.batch.n)
  {
    var s := Survivors(o, |o.owners|);
    ResultsAreOfSurvivors(o);
    SurvivorsBelow(o);
    SurvivorsAscend(o, |o.owners|);
    CollectOfAscending(o.batch, rank, s);
    SortedIsUnique(rank, Collect(o.batch.work, s), sorted);
    SurvivorsCount(o, |o.owners|);
    LostOnce(o, Main);
    LostOnce(o, Worker);
    if !o.mainLost && !o.workerLost {
      AllSurvive(o, o.batch.n);
    }
  }

  lemma ResultsAreOfSurvivors<R>(o: Outcome<R>)
    requires Legal(o)
    ensures multiset(o.results) == multiset(Collect(o.batch.work, Survivors(o, |o.owners|)))
  {
    var m, w := Worked(o.owners, Main, o.mainLost), Worked(o.owners, Worker, o.workerLost);
    WorkedAreSurvivors(o);
    BagPermutes(o.batch.work, m + w, Survivors(o, |o.owners|));
    BagConcat(o.batch.work, m, w);
    BagIsCollect(o.batch.work, m);
    BagIsCollect(o.batch.work, w);
    BagIsCollect(o.batch.work, Survivors(o, |o.owners|));
    MultisetConcat(Collect(o.batch.work, m), Collect(o.batch.work, w));
  }

  lemma SurvivorsBelow<R>(o: Outcome<R>)
    requires Legal(o)
    ensures forall j :: 0 <= j < |Survivors(o, |o.owners|)| ==> Survivors(o, |o.owners|)[j] < o.batch.n
  {
    SurvivorsAre(o, |o.owners|);
    forall j | 0 <= j < |Survivors(o, |o.owners|)| ensures Survivors(o, |o.owners|)[j] < o.batch.n {
      assert Survivors(o, |o.owners|)[j] in Survivors(o, |o.owners|);
    }
  }

  lemma {:induction false} AllSurvive<R>(o: Outcome<R>, n: nat)
    requires !o.mainLost && !o.workerLost
    ensures Survivors(o, n) == Upto(n)
  {
    if n > 0 {
      AllSurvive(o, n - 1);
      assert Upto(n) == Upto(n - 1) + [n - 1];
    }
  }
}

/** FST4's dual-core batches (embedded-poc/embedded-shared/src/fst4_dual_core.rs):
    one global claim counter, a depth-1 job queue and a depth-1 result queue, and
    a persistent worker. `run_split` resets the counter, posts the job, drains its
    own share, then blocks for the worker's token.

    The state machine runs any sequence of batches under any interleaving. Unlike
    FT8's stage 3, the claim comes before the deadline check, so a core that
    stops on the deadline has already claimed an index nobody will work. */
module Fst4Batches {
  import opened Common

  /** One `run_split` call: `n` items, whether a deadline applies, and the
      per-item function. */
  datatype Batch<!R> = Batch(n: nat, timed: bool, work: nat -> Option<R>)

  // ---- The outcome of a batch ---------------------------------------------

  /** The indices core `c` claimed, ascending, when index k went to `owners[k]`. */
  function Claims(owners: seq<Core>, c: Core): seq<nat> {
    if owners == [] then []
    else
      var n := |owners| - 1;
      Claims(owners[..n], c) + (if owners[n] == c then [n] else [])
  }

  /** The results of working `items` in order. */
  function Collect<R>(work: nat -> Option<R>, items: seq<nat>): seq<R> {
    if items == [] then []
    else
      var n := |items| - 1;
      Collect(work, items[..n]) + (match work(items[n]) case Some(r) => [r] case None => [])
  }

  /** What a core worked: its claims, less the last one if the deadline stopped
      it there. */
  function Worked(owners: seq<Core>, c: Core, lost: bool): seq<nat> {
    var cs := Claims(owners, c);
    if lost && cs != [] then cs[..|cs| - 1] else cs
  }

  /** A finished batch: who claimed each index, and whether each core's last
      claim was lost to the deadline. */
  datatype Outcome<!R> = Outcome(batch: Batch<R>, owners: seq<Core>, mainLost: bool, workerLost: bool, results: seq<R>)

  /** Exactly what a batch may have done. Without a deadline nothing is lost and
      everything is claimed; a core leaves either on the deadline or past the end. */
  ghost predicate Legal<R>(o: Outcome<R>) {
    && |o.owners| <= o.batch.n
    && (o.mainLost ==> o.batch.timed && Claims(o.owners, Main) != [])
    && (o.workerLost ==> o.batch.timed && Claims(o.owners, Worker) != [])
    && (!(o.mainLost && o.workerLost) ==> |o.owners| == o.batch.n)
    && o.results == Collect(o.batch.work, Worked(o.owners, Main, o.mainLost))
                    + Collect(o.batch.work, Worked(o.owners, Worker, o.workerLost))
  }

  // ---- The machine ----------------------------------------------------------

  datatype Drain =
    | Claiming             // about to fetch_add
    | Checking(i: nat)     // owns index i, about to read the clock
    | Working(i: nat)      // running the per-item function
    | Finished(lost: bool) // left the loop

  datatype MainPc<!R> =
    | Outside                                              // not inside run_split
    | Sending(batch: Batch<R>)                             // counter reset, job not yet posted
    | Draining(batch: Batch<R>, at: Drain, mine: seq<R>)   // its own share, then blocked on the token

  datatype WorkerPc<!R> =
    | Waiting                                              // blocked on the job queue
    | Busy(batch: Batch<R>, at: Drain, theirs: seq<R>)     // running the job, then posting the token

  datatype State<!R> = State(
    nextIdx: nat,
    jobs: seq<Batch<R>>,
    tokens: nat,
    workerOut: seq<R>,
    workerLost: bool,         // history: how the worker's last drain ended
    main: MainPc<R>,
    worker: WorkerPc<R>,
    owners: seq<Core>,        // history: in-range claims since the last reset
    done: seq<Outcome<R>>     // batches whose run_split has returned
  )

  datatype Event<!R> =
    | Call(batch: Batch<R>)          // main enters run_split and resets the counter
    | Post                           // main posts the job
    | Receive                        // worker takes the job
    | Move(core: Core, late: bool)   // one step of a core's claim loop; late: the clock passed the deadline
    | Token                          // worker publishes its results and posts the token
    | Return                         // main receives the token and returns

  function Init<R>(): State<R> {
    State(0, [], 0, [], false, Outside, Waiting, [], [])
  }

  predicate Enabled<R>(s: State<R>, e: Event<R>) {
    match e
    case Call(_) => s.main.Outside?
    case Post => s.main.Sending? && |s.jobs| < 1
    case Receive => s.worker.Waiting? && s.jobs != []
    case Move(Main, _) => s.main.Draining? && !s.main.at.Finished?
    case Move(Worker, _) => s.worker.Busy? && !s.worker.at.Finished?
    case Token => s.worker.Busy? && s.worker.at.Finished? && s.tokens < 1
    case Return => s.main.Draining? && s.main.at.Finished? && s.tokens > 0
  }

  /** One step of the claim loop both cores run. */
  function DrainStep<R>(b: Batch<R>, at: Drain, out: seq<R>, nextIdx: nat, late: bool): (Drain, seq<R>) {
    match at
    case Claiming => (if nextIdx >= b.n then Finished(false) else Checking(nextIdx), out)
    case Checking(i) => (if b.timed && late then Finished(true) else Working(i), out)
    case Working(i) => (Claiming, out + (match b.work(i) case Some(r) => [r] case None => []))
    case Finished(_) => (at, out)
  }

  function Claimed(b: nat, at: Drain, nextIdx: nat, c: Core): seq<Core> {
    if at.Claiming? && nextIdx < b then [c] else []
  }

  function Step<R>(s: State<R>, e: Event<R>): State<R>
    requires Enabled(s, e)
  {
    match e
    case Call(b) => s.(main := Sending(b), nextIdx := 0, owners := [])
    case Post => s.(main := Draining(s.main.batch, Claiming, []), jobs := s.jobs + [s.main.batch])
    case Receive => s.(worker := Busy(s.jobs[0], Claiming, []), jobs := s.jobs[1..])
    case Move(Main, late) =>
      var b, at := s.main.batch, s.main.at;
      var (at', mine) := DrainStep(b, at, s.main.mine, s.nextIdx, late);
      s.(main := Draining(b, at', mine),
         owners := s.owners + Claimed(b.n, at, s.nextIdx, Main),
         nextIdx := if at.Claiming? then s.nextIdx + 1 else s.nextIdx)
    case Move(Worker, late) =>
      var b, at := s.worker.batch, s.worker.at;
      var (at', theirs) := DrainStep(b, at, s.worker.theirs, s.nextIdx, late);
      s.(worker := Busy(b, at', theirs),
         owners := s.owners + Claimed(b.n, at, s.nextIdx, Worker),
         nextIdx := if at.Claiming? then s.nextIdx + 1 else s.nextIdx)
    case Token =>
      s.(worker := Waiting, tokens := s.tokens + 1, workerOut := s.worker.theirs, workerLost := s.worker.at.lost)
    case Return =>
      s.(main := Outside, tokens := s.tokens - 1,
         done := s.done + [Outcome(s.main.batch, s.owners, s.main.at.lost, s.workerLost, s.main.mine + s.workerOut)])
  }

  function Run<R>(es: seq<Event<R>>): Option<State<R>> {
    if es == [] then Some(Init())
    else
      var n := |es| - 1;
      match Run(es[..n])
      case None => None
      case Some(t) => if Enabled(t, es[n]) then Some(Step(t, es[n])) else None
  }

  // ---- Invariant ---------------------------------------------------------------

  /** Where one core's drain stands: `out` is what its finished claims produced. */
  ghost predicate DrainInv<R>(b: Batch<R>, at: Drain, out: seq<R>, nextIdx: nat, owners: seq<Core>, c: Core) {
    var cs := Claims(owners, c);
    match at
    case Claiming => out == Collect(b.work, cs)
    case Checking(i) => cs != [] && cs[|cs| - 1] == i && out == Collect(b.work, cs[..|cs| - 1])
    case Working(i) => cs != [] && cs[|cs| - 1] == i && out == Collect(b.work, cs[..|cs| - 1])
    case Finished(lost) =>
      && out == Collect(b.work, Worked(owners, c, lost))
      && (if lost then b.timed && cs != [] else nextIdx >= b.n)
  }

  /** The counter and the claim history of the batch in hand agree. */
  predicate CounterInv<R>(s: State<R>, b: Batch<R>) {
    |s.owners| == if s.nextIdx <= b.n then s.nextIdx else b.n
  }

  /** Outside `run_split`, and while the job is still in main's hands, the worker
      is blocked and both queues are empty. Inside, exactly one of job, worker and
      token carries the batch, and it is main's. */
  ghost predicate Inv<R>(s: State<R>) {
    && (forall k :: 0 <= k < |s.done| ==> Legal(s.done[k]))
    && match s.main
       case Outside => Quiet(s)
       case Sending(b) => Quiet(s) && s.nextIdx == 0 && s.owners == []
       case Draining(b, at, mine) =>
         && CounterInv(s, b)
         && DrainInv(b, at, mine, s.nextIdx, s.owners, Main)
         && match s.worker
            case Busy(b', at', theirs) =>
              s.jobs == [] && s.tokens == 0 && b' == b && DrainInv(b, at', theirs, s.nextIdx, s.owners, Worker)
            case Waiting =>
              if s.jobs != [] then s.jobs == [b] && s.tokens == 0 && Claims(s.owners, Worker) == []
              else s.tokens == 1
                   && DrainInv(b, Finished(s.workerLost), s.workerOut, s.nextIdx, s.owners, Worker)
  }

  predicate Quiet<R>(s: State<R>) {
    s.worker.Waiting? && s.jobs == [] && s.tokens == 0
  }

  lemma ClaimsSnoc(owners: seq<Core>, who: Core, c: Core)
    ensures Claims(owners + [who], c) == Claims(owners, c) + (if who == c then [|owners|] else [])
  {
    assert (owners + [who])[..|owners|] == owners;
  }

  /** A drain's invariant is preserved by its own step. */
  lemma DrainStepKeeps<R>(b: Batch<R>, at: Drain, out: seq<R>, nextIdx: nat, owners: seq<Core>, c: Core, late: bool)
    requires DrainInv(b, at, out, nextIdx, owners, c) && !at.Finished?
    requires |owners| == if nextIdx <= b.n then nextIdx else b.n
    ensures
      var (at', out') := DrainStep(b, at, out, nextIdx, late);
      var next' := if at.Claiming? then nextIdx + 1 else nextIdx;
      var owners' := owners + Claimed(b.n, at, nextIdx, c);
      && DrainInv(b, at', out', next', owners', c)
      && |owners'| == if next' <= b.n then next' else b.n
  {
    if at.Claiming? && nextIdx < b.n {
      ClaimsSnoc(owners, c, c);
      var cs := Claims(owners, c);
      assert (cs + [|owners|])[..|cs|] == cs;
    } else {
      assert owners + Claimed(b.n, at, nextIdx, c) == owners;
    }
  }

  /** ... and by the other core's. */
  lemma DrainStepFrames<R>(b: Batch<R>, at: Drain, nextIdx: nat, owners: seq<Core>, c: Core,
                           mine: Drain, out: seq<R>, o: Core)
    requires DrainInv(b, mine, out, nextIdx, owners, o) && o != c
    ensures
      var next' := if at.Claiming? then nextIdx + 1 else nextIdx;
      var owners' := owners + Claimed(b.n, at, nextIdx, c);
      DrainInv(b, mine, out, next', owners', o) && Claims(owners', o) == Claims(owners, o)
  {
    if at.Claiming? && nextIdx < b.n {
      ClaimsSnoc(owners, c, o);
    } else {
      assert owners + Claimed(b.n, at, nextIdx, c) == owners;
    }
    assert Claims(owners + Claimed(b.n, at, nextIdx, c), o) == Claims(owners, o);
  }

  lemma MainMoveInv<R>(s: State<R>, late: bool)
    requires Inv(s) && Enabled(s, Move(Main, late))
    ensures Inv(Step(s, Move(Main, late)))
  {
    DrainStepKeeps(s.main.batch, s.main.at, s.main.mine, s.nextIdx, s.owners, Main, late);
    if s.worker.Busy? {
      DrainStepFrames(s.main.batch, s.main.at, s.nextIdx, s.owners, Main, s.worker.at, s.worker.theirs, Worker);
    } else if s.jobs == [] {
      DrainStepFrames(s.main.batch, s.main.at, s.nextIdx, s.owners, Main, Finished(s.workerLost), s.workerOut, Worker);
    } else {
      NoClaimYet(s.main.batch, s.main.at, s.nextIdx, s.owners);
    }
  }

  lemma NoClaimYet<R>(b: Batch<R>, at: Drain, nextIdx: nat, owners: seq<Core>)
    requires Claims(owners, Worker) == []
    ensures Claims(owners + Claimed(b.n, at, nextIdx, Main), Worker) == []
  {
    ClaimsSnoc(owners, Main, Worker);
    assert owners + [] == owners;
  }

  lemma WorkerMoveInv<R>(s: State<R>, late: bool)
    requires Inv(s) && Enabled(s, Move(Worker, late))
    ensures Inv(Step(s, Move(Worker, late)))
  {
    var b, at := s.worker.batch, s.worker.at;
    DrainStepKeeps(b, at, s.worker.theirs, s.nextIdx, s.owners, Worker, late);
    DrainStepFrames(b, at, s.nextIdx, s.owners, Worker, s.main.at, s.main.mine, Main);
  }

  lemma ReturnInv<R>(s: State<R>)
    requires Inv(s) && Enabled(s, Return)
    ensures Inv(Step(s, Return))
  {
    var o := Outcome(s.main.batch, s.owners, s.main.at.lost, s.workerLost, s.main.mine + s.workerOut);
    assert Legal(o);
    assert Step(s, Return).done == s.done + [o];
  }

  lemma StepInv<R>(s: State<R>, e: Event<R>)
    requires Inv(s) && Enabled(s, e)
    ensures Inv(Step(s, e))
  {
    match e
    case Move(Main, late) => MainMoveInv(s, late);
    case Move(Worker, late) => WorkerMoveInv(s, late);
    case Return => ReturnInv(s);
    case _ =>
  }

  lemma {:induction false} RunInv<R>(es: seq<Event<R>>)
    requires Run(es).Some?
    ensures Inv(Run(es).value)
  {
    if es != [] {
      var n := |es| - 1;
      RunInv(es[..n]);
      StepInv(Run(es[..n]).value, es[n]);
    }
  }

  // ---- Main results ------------------------------------------------------------

  /** Between batches nothing is in flight, and during one the only job, worker
      run or token in the system is this batch's: no claim can come from another
      batch's loop. */
  lemma BatchesDoNotOverlap<R>(es: seq<Event<R>>)
    requires Run(es).Some?
    ensures
      var s := Run(es).value;
      && (s.main.Outside? ==> s.worker.Waiting? && s.jobs == [] && s.tokens == 0)
      && (s.worker.Busy? ==> s.main.Draining? && s.worker.batch == s.main.batch && s.tokens == 0)
      && |s.jobs| + s.tokens + (if s.worker.Busy? then 1 else 0) == (if s.main.Draining? then 1 else 0)
  {
    RunInv(es);
  }

  /** Every batch that has returned, in every run, did exactly what `Legal` says. */
  lemma EveryOutcomeLegal<R>(es: seq<Event<R>>, k: nat)
    requires Run(es).Some? && k < |Run(es).value.done|
    ensures Legal(Run(es).value.done[k])
  {
    RunInv(es);
  }

  lemma {:induction false} ClaimsAre(owners: seq<Core>, c: Core)
    ensures forall i: nat :: i in Claims(owners, c) <==> i < |owners| && owners[i] == c
  {
    if owners != [] {
      var n := |owners| - 1;
      ClaimsAre(owners[..n], c);
      forall i: nat ensures i in Claims(owners, c) <==> i < |owners| && owners[i] == c {
        assert i in Claims(owners[..n], c) <==> i < n && owners[..n][i] == c;
      }
    }
  }

  lemma ClaimBelow(owners: seq<Core>, c: Core, k: nat)
    requires k < |Claims(owners, c)|
    ensures Claims(owners, c)[k] < |owners| && owners[Claims(owners, c)[k]] == c
  {
    ClaimsAre(owners, c);
    assert Claims(owners, c)[k] in Claims(owners, c);
  }

  lemma {:induction false} ClaimsAscend(owners: seq<Core>, c: Core)
    ensures forall j, k :: 0 <= j < k < |Claims(owners, c)| ==> Claims(owners, c)[j] < Claims(owners, c)[k]
  {
    if owners != [] {
      var n := |owners| - 1;
      ClaimsAscend(owners[..n], c);
      forall k | 0 <= k < |Claims(owners[..n], c)| ensures Claims(owners[..n], c)[k] < n {
        ClaimBelow(owners[..n], c, k);
      }
    }
  }

  lemma {:induction false} AscendingCount(items: seq<nat>, i: nat)
    requires forall j, k :: 0 <= j < k < |items| ==> items[j] < items[k]
    ensures multiset(items)[i] == if i in items then 1 else 0
  {
    if items != [] {
      var n := |items| - 1;
      AscendingCount(items[..n], i);
      assert items == items[..n] + [items[n]];
    }
  }

  /** Whether core `c` lost its claim of index i to the deadline. */
  predicate Lost(owners: seq<Core>, c: Core, lost: bool, i: nat) {
    lost && Claims(owners, c) != [] && i == Claims(owners, c)[|Claims(owners, c)| - 1]
  }

  lemma WithoutLast(cs: seq<nat>, i: nat)
    requires forall j, k :: 0 <= j < k < |cs| ==> cs[j] < cs[k]
    ensures cs != [] ==> (i in cs[..|cs| - 1] <==> i in cs && i != cs[|cs| - 1])
  {
    if cs != [] {
      assert cs == cs[..|cs| - 1] + [cs[|cs| - 1]];
    }
  }

  lemma WorkedCount(owners: seq<Core>, c: Core, lost: bool, i: nat)
    ensures multiset(Worked(owners, c, lost))[i]
         == if i < |owners| && owners[i] == c && !Lost(owners, c, lost, i) then 1 else 0
    ensures Lost(owners, c, lost, i) ==> i < |owners| && owners[i] == c
  {
    var cs := Claims(owners, c);
    ClaimsAre(owners, c);
    ClaimsAscend(owners, c);
    if cs != [] {
      ClaimBelow(owners, c, |cs| - 1);
    }
    AscendingCount(Worked(owners, c, lost), i);
    WithoutLast(cs, i);
    assert i in cs <==> i < |owners| && owners[i] == c;
  }

  /** No index is worked twice, and the only in-range claims nobody works are the
      last claim of each core the deadline stopped: at most two of them. */
  lemma EachIndexAtMostOnce<R>(o: Outcome<R>, i: nat)
    requires Legal(o) && i < o.batch.n
    ensures
      var m, w := Worked(o.owners, Main, o.mainLost), Worked(o.owners, Worker, o.workerLost);
      var lost := Lost(o.owners, Main, o.mainLost, i) || Lost(o.owners, Worker, o.workerLost, i);
      multiset(m)[i] + multiset(w)[i] == if i < |o.owners| && !lost then 1 else 0
    ensures |o.owners| < o.batch.n ==> o.mainLost && o.workerLost
  {
    WorkedCount(o.owners, Main, o.mainLost, i);
    WorkedCount(o.owners, Worker, o.workerLost, i);
  }

  // ---- Rank order: the dual-core list is the single-core list ----------------------

  /** The indices below `n`, ascending: what one core works. */
  function Upto(n: nat): seq<nat> {
    seq(n, i requires 0 <= i < n => i)
  }

  ghost predicate SortedByRank<R>(rank: R -> nat, rs: seq<R>) {
    forall j, k :: 0 <= j < k < |rs| ==> rank(rs[j]) <= rank(rs[k])
  }

  /** Every result carries the index it was computed from. */
  ghost predicate RanksItself<R>(b: Batch<R>, rank: R -> nat) {
    forall i: nat :: i < b.n && b.work(i).Some? ==> rank(b.work(i).value) == i
  }

  /** What one item adds to the results. */
  function Reported<R>(r: Option<R>): seq<R> {
    match r case Some(v) => [v] case None => []
  }

  /** The results of working `items`, order forgotten. */
  ghost function Bag<R>(work: nat -> Option<R>, items: seq<nat>): multiset<R> {
    if items == [] then multiset{}
    else
      var n := |items| - 1;
      Bag(work, items[..n]) + multiset(Reported(work(items[n])))
  }

  lemma BagSnoc<R>(work: nat -> Option<R>, items: seq<nat>, x: nat)
    ensures Bag(work, items + [x]) == Bag(work, items) + multiset(Reported(work(x)))
  {
    assert (items + [x])[..|items|] == items;
  }

  lemma {:induction false} BagIsCollect<R>(work: nat -> Option<R>, items: seq<nat>)
    ensures multiset(Collect(work, items)) == Bag(work, items)
  {
    if items != [] {
      var n := |items| - 1;
      BagIsCollect(work, items[..n]);
      MultisetConcat(Collect(work, items[..n]), Reported(work(items[n])));
    }
  }

  /** What core `c` contributes, and what one core alone would, as bags. */
  ghost function CoreBag<R>(work: nat -> Option<R>, owners: seq<Core>, c: Core): multiset<R> {
    if owners == [] then multiset{}
    else
      var n := |owners| - 1;
      CoreBag(work, owners[..n], c) + (if owners[n] == c then multiset(Reported(work(n))) else multiset{})
  }

  ghost function AllBag<R>(work: nat -> Option<R>, n: nat): multiset<R> {
    if n == 0 then multiset{} else AllBag(work, n - 1) + multiset(Reported(work(n - 1)))
  }

  lemma {:induction false} BagOfClaims<R>(work: nat -> Option<R>, owners: seq<Core>, c: Core)
    ensures Bag(work, Claims(owners, c)) == CoreBag(work, owners, c)
  {
    if owners != [] {
      var n := |owners| - 1;
      var cs := Claims(owners[..n], c);
      BagOfClaims(work, owners[..n], c);
      if owners[n] == c {
        BagSnoc(work, cs, n);
        assert Claims(owners, c) == cs + [n];
      } else {
        assert Claims(owners, c) == cs;
        assert CoreBag(work, owners, c) == CoreBag(work, owners[..n], c);
      }
    }
  }

  lemma UptoSnoc(n: nat)
    ensures Upto(n + 1) == Upto(n) + [n]
  {
  }

  lemma BagUptoNext<R>(work: nat -> Option<R>, n: nat)
    requires Bag(work, Upto(n)) == AllBag(work, n)
    ensures Bag(work, Upto(n + 1)) == AllBag(work, n + 1)
  {
    UptoSnoc(n);
    BagSnoc(work, Upto(n), n);
  }

  lemma {:induction false} BagOfUpto<R>(work: nat -> Option<R>, n: nat)
    ensures Bag(work, Upto(n)) == AllBag(work, n)
  {
    if n == 0 {
      assert Upto(0) == [];
    } else {
      BagOfUpto(work, n - 1);
      BagUptoNext(work, n - 1);
    }
  }

  lemma {:induction false} BagsCoverAll<R>(work: nat -> Option<R>, owners: seq<Core>)
    ensures CoreBag(work, owners, Main) + CoreBag(work, owners, Worker) == AllBag(work, |owners|)
  {
    if owners != [] {
      var n := |owners| - 1;
      BagsCoverAll(work, owners[..n]);
      MultisetSwap(CoreBag(work, owners[..n], Main), multiset(Reported(work(n))), CoreBag(work, owners[..n], Worker));
    }
  }

  /** Working `0..|owners|` on two cores yields the single core's results as a
      multiset. */
  lemma SharesCoverAll<R>(work: nat -> Option<R>, owners: seq<Core>)
    ensures multiset(Collect(work, Claims(owners, Main)) + Collect(work, Claims(owners, Worker)))
         == multiset(Collect(work, Upto(|owners|)))
  {
    var m, w := Claims(owners, Main), Claims(owners, Worker);
    MultisetConcat(Collect(work, m), Collect(work, w));
    BagsCoverAll(work, owners);
    BagOfClaims(work, owners, Main);
    BagOfClaims(work, owners, Worker);
    BagOfUpto(work, |owners|);
    BagIsCollect(work, m);
    BagIsCollect(work, w);
    BagIsCollect(work, Upto(|owners|));
  }

  lemma {:induction false} CollectMembers<R>(work: nat -> Option<R>, items: seq<nat>, r: R)
    ensures r in Collect(work, items) <==> exists i :: i in items && work(i) == Some(r)
  {
    if items != [] {
      var n := |items| - 1;
      CollectMembers(work, items[..n], r);
      assert forall i :: i in items <==> i in items[..n] || i == items[n];
    }
  }

  /** A result is in one core's list exactly when some index returned it, and the list
      has one entry for each index that returned anything. */
  lemma {:induction false} SingleCoreList<R>(work: nat -> Option<R>, n: nat, r: R)
    ensures r in Collect(work, Upto(n)) <==> exists i: nat :: i < n && work(i) == Some(r)
    ensures |Collect(work, Upto(n))| == Answered(work, n)
  {
    if n == 0 {
      assert Upto(0) == [];
    } else {
      SingleCoreList(work, n - 1, r);
      assert Upto(n)[..n - 1] == Upto(n - 1);
    }
  }

  /** How many of the indices below `n` return a result. */
  function Answered<R>(work: nat -> Option<R>, n: nat): nat {
    if n == 0 then 0 else Answered(work, n - 1) + if work(n - 1).Some? then 1 else 0
  }

  lemma {:induction false} CollectAscends<R>(b: Batch<R>, rank: R -> nat, n: nat)
    requires RanksItself(b, rank) && n <= b.n
    ensures forall j, k :: 0 <= j < k < |Collect(b.work, Upto(n))| ==>
      rank(Collect(b.work, Upto(n))[j]) < rank(Collect(b.work, Upto(n))[k])
    ensures forall r :: r in Collect(b.work, Upto(n)) ==> rank(r) < n
  {
    if n > 0 {
      CollectAscends(b, rank, n - 1);
      assert Upto(n)[..n - 1] == Upto(n - 1);
    }
  }

  /** Two arrangements of the same members, one strictly ranked and one sorted,
      end in the same member and agree as multisets without it. */
  lemma LastAgrees<R>(rank: R -> nat, strict: seq<R>, other: seq<R>)
    requires forall j, k :: 0 <= j < k < |strict| ==> rank(strict[j]) < rank(strict[k])
    requires SortedByRank(rank, other) && multiset(other) == multiset(strict)
    requires |strict| == |other| > 0
    ensures other[|other| - 1] == strict[|strict| - 1]
    ensures multiset(other[..|other| - 1]) == multiset(strict[..|strict| - 1])
  {
    var n := |strict| - 1;
    var a, b := other[n], strict[n];
    assert a in multiset(other) && b in multiset(strict);
    assert a in strict && b in other;
    var j :| 0 <= j < |strict| && strict[j] == a;
    var k :| 0 <= k < |other| && other[k] == b;
    assert rank(other[k]) <= rank(other[n]);
    MultisetInit(strict);
    MultisetInit(other);
  }

  lemma SameSize<R>(a: seq<R>, b: seq<R>)
    requires multiset(a) == multiset(b)
    ensures |a| == |b|
  {
    assert |a| == |multiset(a)| == |multiset(b)| == |b|;
  }

  /** A strictly ranked list is the only rank-sorted arrangement of its members. */
  lemma {:induction false} SortedIsUnique<R>(rank: R -> nat, strict: seq<R>, other: seq<R>)
    requires forall j, k :: 0 <= j < k < |strict| ==> rank(strict[j]) < rank(strict[k])
    requires SortedByRank(rank, other) && multiset(other) == multiset(strict)
    ensures other == strict
  {
    SameSize(other, strict);
    if strict != [] {
      var n := |strict| - 1;
      LastAgrees(rank, strict, other);
      SortedIsUnique(rank, strict[..n], other[..n]);
      assert forall k :: 0 <= k < n ==> other[k] == other[..n][k] && strict[k] == strict[..n][k];
    }
  }

  /** Without a deadline every index is worked exactly once, and any rank-sorted
      arrangement of the two cores' results is the list one core alone returns. */
  lemma UntimedEqualsSingleCore<R>(o: Outcome<R>, rank: R -> nat, sorted: seq<R>)
    requires Legal(o) && !o.batch.timed && RanksItself(o.batch, rank)
    requires SortedByRank(rank, sorted) && multiset(sorted) == multiset(o.results)
    ensures sorted == Collect(o.batch.work, Upto(o.batch.n))
    ensures forall i: nat :: i < o.batch.n ==>
      multiset(Claims(o.owners, Main))[i] + multiset(Claims(o.owners, Worker))[i] == 1
  {
    SharesCoverAll(o.batch.work, o.owners);
    CollectAscends(o.batch, rank, o.batch.n);
    SortedIsUnique(rank, Collect(o.batch.work, Upto(o.batch.n)), sorted);
    forall i: nat | i < o.batch.n
      ensures multiset(Claims(o.owners, Main))[i] + multiset(Claims(o.owners, Worker))[i] == 1
    {
      EachIndexAtMostOnce(o, i);
    }
  }

  /** `drain_single`: the same claim loop on one core. `late(i)` is what the clock
      says when index i is checked. */
  method DrainSingle<R>(b: Batch<R>, late: nat -> bool) returns (out: seq<R>)
    ensures exists k: nat ::
      && k <= b.n
      && out == Collect(b.work, Upto(k))
      && (forall i: nat :: i < k ==> !(b.timed && late(i)))
      && (k < b.n ==> b.timed && late(k))
    ensures !b.timed ==> out == Collect(b.work, Upto(b.n))
  {
    var nextIdx := 0;
    out := [];
    assert Upto(0) == [];
    while true
      invariant nextIdx <= b.n
      invariant out == Collect(b.work, Upto(nextIdx))
      invariant forall i: nat :: i < nextIdx ==> !(b.timed && late(i))
      decreases b.n - nextIdx
    {
      var i := nextIdx;
      nextIdx := nextIdx + 1;
      if i >= b.n { break; }
      if b.timed && late(i) { break; }
      assert Upto(nextIdx)[..i] == Upto(i);
      match b.work(i) {
        case Some(r) => out := out + [r];
        case None => out := out + [];
      }
    }
  }

  // ---- A parallel matrix fill ---------------------------------------------------

  /** `sync2d_row` as a batch: item i overwrites row i of the matrix. Rows are
      written in whatever order the two cores reach them. */
  function Fill<V>(rows: seq<V>, row: nat -> V, order: seq<nat>): seq<V>
    requires forall k :: 0 <= k < |order| ==> order[k] < |rows|
    ensures |Fill(rows, row, order)| == |rows|
  {
    if order == [] then rows
    else
      var n := |order| - 1;
      Fill(rows, row, order[..n])[order[n] := row(order[n])]
  }

  lemma {:induction false} FillAt<V>(rows: seq<V>, row: nat -> V, order: seq<nat>, i: nat)
    requires i < |rows| && forall k :: 0 <= k < |order| ==> order[k] < |rows|
    ensures Fill(rows, row, order)[i] == if i in order then row(i) else rows[i]
  {
    if order != [] {
      var n := |order| - 1;
      FillAt(rows, row, order[..n], i);
      assert i in order <==> i in order[..n] || i == order[n];
    }
  }

  lemma UntimedClaimsCover<R>(o: Outcome<R>, order: seq<nat>, i: nat)
    requires Legal(o) && !o.batch.timed
    requires multiset(order) == multiset(Claims(o.owners, Main) + Claims(o.owners, Worker))
    ensures i in order <==> i < o.batch.n
  {
    var m, w := Claims(o.owners, Main), Claims(o.owners, Worker);
    ClaimsAre(o.owners, Main);
    ClaimsAre(o.owners, Worker);
    assert i in order <==> i in multiset(order);
    assert i in m + w <==> i in multiset(m + w);
    assert i in m + w <==> i in m || i in w;
  }

  /** An undeadlined fill leaves no hole and does not depend on the split: in any
      order the two cores' writes land, the matrix is the row-by-row one. */
  lemma FillIsComplete<R, V>(o: Outcome<R>, rows: seq<V>, row: nat -> V, order: seq<nat>)
    requires Legal(o) && !o.batch.timed && |rows| == o.batch.n
    requires multiset(order) == multiset(Claims(o.owners, Main) + Claims(o.owners, Worker))
    ensures forall k :: 0 <= k < |order| ==> order[k] < |rows|
    ensures Fill(rows, row, order) == seq(o.batch.n, i requires 0 <= i < o.batch.n => row(i))
  {
    forall k | 0 <= k < |order| ensures order[k] < |rows| {
      UntimedClaimsCover(o, order, order[k]);
    }
    forall i: nat | i < o.batch.n ensures Fill(rows, row, order)[i] == row(i) {
      UntimedClaimsCover(o, order, i);
      FillAt(rows, row, order, i);
    }
  }
}

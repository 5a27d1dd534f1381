/** The one internal-DRAM block for whichever mode's decode workers run
    (embedded-poc/embedded-shared/src/worker_arena.rs): `reserve` takes it for one
    owner with a compare-and-swap, `claim` hands it to that owner.

    Any number of tasks call either function with any owner and size; each atomic
    operation and each allocation is one step, and the allocator may refuse. Memory
    is sequentially consistent in the model. */
module WorkerArena {
  import opened Common

  datatype Owner = Ft8Scratch | Fst4Worker | WsprWorker

  /** A heap block: when it was allocated, its size and for whom. */
  datatype Block = Block(id: nat, bytes: nat, owner: Owner)

  /** A task's place in one call. `settled` is not in the source: it records whether
      the owner's allocation had already succeeded when the call looked at OWNER, or
      was the call's own. */
  datatype Pc =
    | Idle
    | Cas(owner: Owner, bytes: nat)
    | CheckBase(owner: Owner, settled: bool)
    | Allocate(owner: Owner, bytes: nat)
    | GiveUp(owner: Owner)
    | StoreBase(block: Block)
    | StoreBytes(block: Block)
    | Reserved(owner: Owner, ok: bool, settled: bool)
    | LoadOwner(owner: Owner, bytes: nat)
    | LoadBytes(owner: Owner, bytes: nat, settled: bool)
    | LoadBase(owner: Owner, bytes: nat, settled: bool)
    | Claimed(owner: Owner, bytes: nat, ptr: Option<Block>, settled: bool)

  /** `winner` is not in the source either: whose allocation succeeded. */
  datatype State = State(
    owner: Option<Owner>,   // OWNER, None for 0
    base: Option<Block>,    // BASE, None for null
    bytes: nat,             // BYTES
    allocs: nat,
    winner: Option<Owner>,
    tasks: seq<Pc>)

  datatype Event =
    | Reserve(task: nat, owner: Owner, bytes: nat)
    | Claim(task: nat, owner: Owner, bytes: nat)
    | Step(task: nat, available: bool)   // available: the allocator's answer, when asked
    | Forget(task: nat)

  function Init(n: nat): State {
    State(None, None, 0, 0, None, seq(n, _ => Idle))
  }

  predicate Done(pc: Pc) {
    pc.Reserved? || pc.Claimed?
  }

  predicate Enabled(s: State, e: Event) {
    && e.task < |s.tasks|
    && match e
       case Reserve(t, _, _) => s.tasks[t].Idle?
       case Claim(t, _, _) => s.tasks[t].Idle?
       case Step(t, _) => !s.tasks[t].Idle? && !Done(s.tasks[t])
       case Forget(t) => Done(s.tasks[t])
  }

  function At(s: State, t: nat, pc: Pc): State
    requires t < |s.tasks|
  {
    s.(tasks := s.tasks[t := pc])
  }

  function Next(s: State, e: Event): State
    requires Enabled(s, e)
  {
    match e
    case Reserve(t, owner, bytes) => At(s, t, Cas(owner, bytes))
    case Claim(t, owner, bytes) => At(s, t, LoadOwner(owner, bytes))
    case Forget(t) => At(s, t, Idle)
    case Step(t, available) =>
      match s.tasks[t]
      case Cas(owner, bytes) =>
        if s.owner == None then At(s, t, Allocate(owner, bytes)).(owner := Some(owner))
        else if s.owner == Some(owner) then At(s, t, CheckBase(owner, s.winner == Some(owner)))
        else At(s, t, Reserved(owner, false, false))
      case CheckBase(owner, settled) => At(s, t, Reserved(owner, s.base.Some?, settled))
      case Allocate(owner, bytes) =>
        if available
        then At(s, t, StoreBase(Block(s.allocs, bytes, owner))).(allocs := s.allocs + 1, winner := Some(owner))
        else At(s, t, GiveUp(owner))
      case GiveUp(owner) => At(s, t, Reserved(owner, false, false)).(owner := None)
      case StoreBase(block) => At(s, t, StoreBytes(block)).(base := Some(block))
      case StoreBytes(block) => At(s, t, Reserved(block.owner, true, true)).(bytes := block.bytes)
      case LoadOwner(owner, bytes) =>
        At(s, t, if s.owner == Some(owner) then LoadBytes(owner, bytes, s.winner == Some(owner))
                 else Claimed(owner, bytes, None, false))
      case LoadBytes(owner, bytes, settled) =>
        At(s, t, if bytes > s.bytes then Claimed(owner, bytes, None, settled) else LoadBase(owner, bytes, settled))
      case LoadBase(owner, bytes, settled) => At(s, t, Claimed(owner, bytes, s.base, settled))
      case _ => s
  }

  /** The state after `es`, if every event of it could happen. */
  function RunFrom(s: State, es: seq<Event>): Option<State>
    decreases |es|
  {
    if es == [] then Some(s)
    else if Enabled(s, es[0]) then RunFrom(Next(s, es[0]), es[1..])
    else None
  }

  function Run(n: nat, es: seq<Event>): Option<State> {
    RunFrom(Init(n), es)
  }

  // ---- Invariant ----------------------------------------------------------------------

  /** The task is between its compare-and-swap and the end of its reservation. */
  predicate Reserving(pc: Pc) {
    pc.Allocate? || pc.GiveUp? || pc.StoreBase? || pc.StoreBytes?
  }

  predicate Failing(pc: Pc) {
    pc.Allocate? || pc.GiveUp?
  }

  ghost predicate Shared(s: State) {
    && (s.winner.Some? ==> s.owner == s.winner)
    && (s.base.Some? ==> s.winner == Some(s.base.value.owner))
    && (s.bytes > 0 ==> s.base.Some? && s.base.value.bytes == s.bytes)
  }

  ghost predicate TaskInv(s: State, pc: Pc) {
    match pc
    case Allocate(o, _) => s.owner == Some(o) && s.winner == None
    case GiveUp(o) => s.owner == Some(o) && s.winner == None
    case StoreBase(b) => s.winner == Some(b.owner) && s.base == None && s.bytes == 0
    case StoreBytes(b) => s.winner == Some(b.owner) && s.base == Some(b) && s.bytes == 0
    case CheckBase(o, settled) => settled ==> s.winner == Some(o)
    case Reserved(o, ok, settled) => ok ==> s.base.Some? && (settled ==> s.base.value.owner == o)
    case LoadBytes(o, _, settled) => settled ==> s.winner == Some(o)
    case LoadBase(o, n, settled) => n <= s.bytes && (settled ==> s.winner == Some(o))
    case Claimed(o, n, ptr, settled) => ptr.Some? ==>
      ptr == s.base && n <= ptr.value.bytes && (settled ==> ptr.value.owner == o)
    case _ => true
  }

  /** One reservation at a time; while the owner is set and nothing is allocated
      yet, there is one. */
  ghost predicate Exclusive(s: State) {
    && (forall t, u :: 0 <= t < |s.tasks| && 0 <= u < |s.tasks| && Reserving(s.tasks[t]) && Reserving(s.tasks[u])
          ==> t == u)
    && (s.owner.Some? && s.winner == None ==> exists t :: 0 <= t < |s.tasks| && Failing(s.tasks[t]))
  }

  ghost predicate Inv(s: State) {
    && Shared(s)
    && Exclusive(s)
    && forall t :: 0 <= t < |s.tasks| ==> TaskInv(s, s.tasks[t])
  }

  /** What no step undoes. */
  ghost predicate Grows(s: State, s': State) {
    && (s.winner.Some? ==> s'.winner == s.winner)
    && (s.base.Some? ==> s'.base == s.base)
    && s.bytes <= s'.bytes
  }

  lemma StepGrows(s: State, e: Event)
    requires Inv(s) && Enabled(s, e)
    ensures Grows(s, Next(s, e))
  {
    assert TaskInv(s, s.tasks[e.task]);
  }

  lemma StepShared(s: State, e: Event)
    requires Inv(s) && Enabled(s, e)
    ensures Shared(Next(s, e))
  {
    assert TaskInv(s, s.tasks[e.task]);
  }

  lemma StepOwn(s: State, e: Event)
    requires Inv(s) && Enabled(s, e)
    ensures TaskInv(Next(s, e), Next(s, e).tasks[e.task])
  {
    assert TaskInv(s, s.tasks[e.task]);
  }

  lemma StepOther(s: State, e: Event, u: nat)
    requires Inv(s) && Enabled(s, e) && u < |s.tasks| && u != e.task
    ensures TaskInv(Next(s, e), s.tasks[u])
  {
    StepGrows(s, e);
    assert TaskInv(s, s.tasks[u]);
    assert TaskInv(s, s.tasks[e.task]);
    if Reserving(s.tasks[u]) {
      assert !Reserving(s.tasks[e.task]);
    }
  }

  lemma StepExclusive(s: State, e: Event)
    requires Inv(s) && Enabled(s, e)
    ensures Exclusive(Next(s, e))
  {
    var s' := Next(s, e);
    assert TaskInv(s, s.tasks[e.task]);
    if s'.owner.Some? && s'.winner == None {
      if Failing(s'.tasks[e.task]) {
      } else {
        var t :| 0 <= t < |s.tasks| && Failing(s.tasks[t]);
        assert t != e.task;
        assert s'.tasks[t] == s.tasks[t];
      }
    }
    forall t, u | 0 <= t < |s'.tasks| && 0 <= u < |s'.tasks| && Reserving(s'.tasks[t]) && Reserving(s'.tasks[u])
      ensures t == u
    {
      OneReserves(s, e, t);
      OneReserves(s, e, u);
    }
  }

  /** A task found reserving after a step was reserving before, or has just won the
      compare-and-swap, with nobody else reserving. */
  lemma OneReserves(s: State, e: Event, t: nat)
    requires Inv(s) && Enabled(s, e) && t < |s.tasks| && Reserving(Next(s, e).tasks[t])
    ensures Reserving(s.tasks[t]) || (t == e.task && forall u :: 0 <= u < |s.tasks| ==> !Reserving(s.tasks[u]))
  {
    if t == e.task && !Reserving(s.tasks[t]) {
      assert s.tasks[t].Cas? && s.owner == None;
      forall u | 0 <= u < |s.tasks| ensures !Reserving(s.tasks[u]) {
        assert TaskInv(s, s.tasks[u]);
      }
    }
  }

  lemma StepInv(s: State, e: Event)
    requires Inv(s) && Enabled(s, e)
    ensures Inv(Next(s, e))
  {
    StepShared(s, e);
    StepExclusive(s, e);
    StepOwn(s, e);
    forall u: nat | u < |s.tasks| && u != e.task
      ensures TaskInv(Next(s, e), s.tasks[u]) && Next(s, e).tasks[u] == s.tasks[u]
    {
      StepOther(s, e, u);
    }
  }

  lemma {:induction false} RunKeeps(s: State, es: seq<Event>)
    requires Inv(s) && RunFrom(s, es).Some?
    ensures Inv(RunFrom(s, es).value) && Grows(s, RunFrom(s, es).value)
    decreases |es|
  {
    if es != [] {
      StepInv(s, es[0]);
      StepGrows(s, es[0]);
      RunKeeps(Next(s, es[0]), es[1..]);
    }
  }

  lemma {:induction false} RunAppend(s: State, a: seq<Event>, b: seq<Event>)
    ensures RunFrom(s, a + b)
            == match RunFrom(s, a) case None => None case Some(t) => RunFrom(t, b)
    decreases |a|
  {
    if a == [] {
      assert a + b == b;
    } else {
      assert (a + b)[1..] == a[1..] + b;
      if Enabled(s, a[0]) {
        RunAppend(Next(s, a[0]), a[1..], b);
      }
    }
  }

  lemma RunInv(n: nat, es: seq<Event>)
    requires Run(n, es).Some?
    ensures Inv(Run(n, es).value)
  {
    RunKeeps(Init(n), es);
  }

  /** The states at two moments of one run. */
  lemma Later(n: nat, es: seq<Event>, k: nat)
    requires Run(n, es).Some? && k <= |es|
    ensures Run(n, es[..k]).Some? && Inv(Run(n, es[..k]).value) && Inv(Run(n, es).value)
    ensures Grows(Run(n, es[..k]).value, Run(n, es).value)
  {
    assert es[..k] + es[k..] == es;
    RunAppend(Init(n), es[..k], es[k..]);
    RunInv(n, es[..k]);
    RunKeeps(Run(n, es[..k]).value, es[k..]);
  }

  // ---- Main results ---------------------------------------------------------------------

  /** Any two reservations that returned true, at any two moments of a run, returned it
      for one and the same block. A reservation that had allocated itself, or had found
      its owner's allocation made, is of that block's owner; so two such are of one
      owner. */
  lemma OneOwnerSucceeds(n: nat, es: seq<Event>, k: nat, t: nat, u: nat)
    requires Run(n, es).Some? && k <= |es| && Run(n, es[..k]).Some?
    requires t < |Run(n, es[..k]).value.tasks| && u < |Run(n, es).value.tasks|
    requires
      var a, b := Run(n, es[..k]).value.tasks[t], Run(n, es).value.tasks[u];
      a.Reserved? && a.ok && b.Reserved? && b.ok
    ensures
      var s, s' := Run(n, es[..k]).value, Run(n, es).value;
      var a, b := s.tasks[t], s'.tasks[u];
      && s.base.Some? && s'.base == s.base
      && (a.settled ==> a.owner == s.base.value.owner)
      && (b.settled ==> b.owner == s.base.value.owner)
  {
    Later(n, es, k);
    assert TaskInv(Run(n, es[..k]).value, Run(n, es[..k]).value.tasks[t]);
    assert TaskInv(Run(n, es).value, Run(n, es).value.tasks[u]);
  }

  /** All successful claims, at any two moments, are handed the same block, and it is
      as large as each of them asked. */
  lemma ClaimsAgree(n: nat, es: seq<Event>, k: nat, t: nat, u: nat)
    requires Run(n, es).Some? && k <= |es| && Run(n, es[..k]).Some?
    requires t < |Run(n, es[..k]).value.tasks| && u < |Run(n, es).value.tasks|
    requires
      var a, b := Run(n, es[..k]).value.tasks[t], Run(n, es).value.tasks[u];
      a.Claimed? && a.ptr.Some? && b.Claimed? && b.ptr.Some?
    ensures
      var a, b := Run(n, es[..k]).value.tasks[t], Run(n, es).value.tasks[u];
      a.ptr == b.ptr && a.bytes <= a.ptr.value.bytes && b.bytes <= b.ptr.value.bytes
  {
    Later(n, es, k);
    assert TaskInv(Run(n, es[..k]).value, Run(n, es[..k]).value.tasks[t]);
    assert TaskInv(Run(n, es).value, Run(n, es).value.tasks[u]);
  }

  /** A claim that looked after its owner's allocation had succeeded is handed that
      owner's block, or nothing. */
  lemma SettledClaimIsOwn(n: nat, es: seq<Event>, t: nat)
    requires Run(n, es).Some? && t < |Run(n, es).value.tasks|
    requires Run(n, es).value.tasks[t].Claimed? && Run(n, es).value.tasks[t].settled
    ensures
      var pc := Run(n, es).value.tasks[t];
      pc.ptr.Some? ==> pc.ptr.value.owner == pc.owner
  {
    RunInv(n, es);
    assert TaskInv(Run(n, es).value, Run(n, es).value.tasks[t]);
  }

  // ---- The window in which exclusivity fails -------------------------------------------

  /** A call that has seen its owner in OWNER and is about to go on from there: a
      claim, or a repeated reservation. */
  predicate Looked(pc: Pc) {
    pc.LoadBytes? || pc.CheckBase?
  }

  /** The call has come back with a block, or with the news that there is one. */
  predicate Served(pc: Pc, o: Owner) {
    (pc.Claimed? && pc.owner == o && pc.ptr.Some?) || (pc.Reserved? && pc.owner == o && pc.ok)
  }

  function TakeOver(r: nat, other: Owner, n: nat): seq<Event> {
    [Step(r, true)] + ([Forget(r)] + ([Reserve(r, other, n)] + ([Step(r, true)]
    + ([Step(r, true)] + ([Step(r, true)] + [Step(r, true)])))))
  }

  lemma RunStep(s: State, e: Event, es: seq<Event>)
    requires Enabled(s, e)
    ensures RunFrom(s, [e] + es) == RunFrom(Next(s, e), es)
  {
    assert ([e] + es)[1..] == es;
  }

  lemma RunOne(s: State, e: Event)
    requires Enabled(s, e)
    ensures RunFrom(s, [e]) == Some(Next(s, e))
  {
    assert [e][1..] == [];
  }

  /** A reservation that has failed gives up, and its task reserves for another
      owner: first half, up to the compare-and-swap. */
  lemma GiveUpAndSwap(s: State, r: nat, other: Owner, n: nat, es: seq<Event>)
    requires Inv(s) && r < |s.tasks| && s.tasks[r].GiveUp?
    ensures
      RunFrom(s, [Step(r, true)] + ([Forget(r)] + ([Reserve(r, other, n)] + ([Step(r, true)] + es))))
      == RunFrom(s.(tasks := s.tasks[r := Allocate(other, n)], owner := Some(other)), es)
  {
    var s1 := Next(s, Step(r, true));
    var s2 := Next(s1, Forget(r));
    var s3 := Next(s2, Reserve(r, other, n));
    var s4 := Next(s3, Step(r, true));
    RunStep(s3, Step(r, true), es);
    RunStep(s2, Reserve(r, other, n), [Step(r, true)] + es);
    RunStep(s1, Forget(r), [Reserve(r, other, n)] + ([Step(r, true)] + es));
    RunStep(s, Step(r, true), [Forget(r)] + ([Reserve(r, other, n)] + ([Step(r, true)] + es)));
    assert s4 == s.(tasks := s.tasks[r := Allocate(other, n)], owner := Some(other));
  }

  /** Second half: the allocation succeeds and is published. */
  lemma AllocateAndPublish(s: State, r: nat, other: Owner, n: nat)
    requires r < |s.tasks| && s.tasks[r] == Allocate(other, n)
    ensures
      var block := Block(s.allocs, n, other);
      RunFrom(s, [Step(r, true)] + ([Step(r, true)] + [Step(r, true)]))
      == Some(s.(tasks := s.tasks[r := Reserved(other, true, true)], base := Some(block), bytes := n,
                 allocs := s.allocs + 1, winner := Some(other)))
  {
    var s1 := Next(s, Step(r, true));
    var s2 := Next(s1, Step(r, true));
    var s3 := Next(s2, Step(r, true));
    assert s3.tasks == s.tasks[r := Reserved(other, true, true)];
    RunOne(s2, Step(r, true));
    RunStep(s1, Step(r, true), [Step(r, true)]);
    RunStep(s, Step(r, true), [Step(r, true)] + [Step(r, true)]);
  }

  lemma TakesOver(s: State, r: nat, other: Owner, n: nat)
    requires Inv(s) && r < |s.tasks| && s.tasks[r].GiveUp?
    ensures
      var end := RunFrom(s, TakeOver(r, other, n));
      && end.Some? && |end.value.tasks| == |s.tasks|
      && end.value.base == Some(Block(s.allocs, n, other)) && end.value.bytes == n
      && forall t :: 0 <= t < |s.tasks| && t != r ==> end.value.tasks[t] == s.tasks[t]
  {
    var s4 := s.(tasks := s.tasks[r := Allocate(other, n)], owner := Some(other));
    GiveUpAndSwap(s, r, other, n, [Step(r, true)] + ([Step(r, true)] + [Step(r, true)]));
    AllocateAndPublish(s4, r, other, n);
  }

  /** What is left of the call that looked. */
  function Finish(t: nat, pc: Pc): seq<Event> {
    if pc.LoadBytes? then [Step(t, true)] + [Step(t, true)] else [Step(t, true)]
  }

  lemma FinishServes(s: State, t: nat, pc: Pc, block: Block)
    requires t < |s.tasks| && s.tasks[t] == pc && Looked(pc) && s.base == Some(block)
    requires pc.LoadBytes? ==> pc.bytes <= s.bytes
    ensures
      var end := RunFrom(s, Finish(t, pc));
      end.Some? && |end.value.tasks| == |s.tasks| && end.value.base == Some(block)
      && Served(end.value.tasks[t], pc.owner) && (pc.LoadBytes? ==> end.value.tasks[t].Claimed?)
  {
    if pc.LoadBytes? {
      var s1 := Next(s, Step(t, true));
      RunStep(s, Step(t, true), [Step(t, true)]);
      RunOne(s1, Step(t, true));
    } else {
      RunOne(s, Step(t, true));
    }
  }

  function Wanted(pc: Pc): nat {
    if pc.LoadBytes? then pc.bytes else 1
  }

  function Another(o: Owner): (p: Owner)
    ensures p != o
  {
    if o == Ft8Scratch then Fst4Worker else Ft8Scratch
  }

  lemma RobbedAfterFailure(s: State, r: nat, t: nat, other: Owner)
    requires Inv(s) && r < |s.tasks| && t < |s.tasks| && s.tasks[r].GiveUp? && Looked(s.tasks[t])
    ensures
      var end := RunFrom(s, TakeOver(r, other, Wanted(s.tasks[t])) + Finish(t, s.tasks[t]));
      && end.Some? && |end.value.tasks| == |s.tasks| && Served(end.value.tasks[t], s.tasks[t].owner)
      && (s.tasks[t].LoadBytes? ==> end.value.tasks[t].Claimed?)
      && end.value.base.Some? && end.value.base.value.owner == other
  {
    var pc, n := s.tasks[t], Wanted(s.tasks[t]);
    TakesOver(s, r, other, n);
    RunAppend(s, TakeOver(r, other, n), Finish(t, pc));
    FinishServes(RunFrom(s, TakeOver(r, other, n)).value, t, pc, Block(s.allocs, n, other));
  }

  /** A claim, or a repeated reservation, that has just seen its owner while the
      owner's block was not allocated yet can still be served another owner's block. */
  lemma UnsettledCanBeRobbed(s: State, t: nat) returns (es: seq<Event>)
    requires Inv(s) && t < |s.tasks| && Looked(s.tasks[t])
    requires s.owner == Some(s.tasks[t].owner) && s.winner == None
    ensures
      && RunFrom(s, es).Some? && |RunFrom(s, es).value.tasks| == |s.tasks|
      && var end := RunFrom(s, es).value;
      && Served(end.tasks[t], s.tasks[t].owner) && (s.tasks[t].LoadBytes? ==> end.tasks[t].Claimed?)
      && end.base.Some? && end.base.value.owner == Another(s.tasks[t].owner)
  {
    var pc := s.tasks[t];
    var other := Another(pc.owner);
    var r: nat :| r < |s.tasks| && Failing(s.tasks[r]);
    if s.tasks[r].GiveUp? {
      RobbedAfterFailure(s, r, t, other);
      es := TakeOver(r, other, Wanted(pc)) + Finish(t, pc);
    } else {
      var e := Step(r, false);
      var s1 := Next(s, e);
      StepInv(s, e);
      RobbedAfterFailure(s1, r, t, other);
      es := [e] + (TakeOver(r, other, Wanted(pc)) + Finish(t, pc));
      RunStep(s, e, TakeOver(r, other, Wanted(pc)) + Finish(t, pc));
    }
  }

  /** A call that found its owner's allocation made is safe: whatever happens next,
      the block it is served is its owner's. */
  lemma SettledCannot(s: State, t: nat, es: seq<Event>)
    requires Inv(s) && t < |s.tasks| && Looked(s.tasks[t]) && s.winner == Some(s.tasks[t].owner)
    requires RunFrom(s, es).Some? && RunFrom(s, es).value.base.Some?
    ensures RunFrom(s, es).value.base.value.owner == s.tasks[t].owner
  {
    RunKeeps(s, es);
  }

  /** Exclusivity, exactly: from any state a run can reach with a call that has just
      seen its owner in OWNER, every block it can ever be served is that owner's if
      and only if that owner's allocation has already succeeded. */
  lemma ExclusiveIffAllocated(n: nat, run: seq<Event>, t: nat)
    requires Run(n, run).Some? && t < |Run(n, run).value.tasks| && Looked(Run(n, run).value.tasks[t])
    requires Run(n, run).value.owner == Some(Run(n, run).value.tasks[t].owner)
    ensures
      var s := Run(n, run).value;
      (forall es :: RunFrom(s, es).Some? && t < |RunFrom(s, es).value.tasks|
                    && Served(RunFrom(s, es).value.tasks[t], s.tasks[t].owner) && RunFrom(s, es).value.base.Some?
                    ==> RunFrom(s, es).value.base.value.owner == s.tasks[t].owner)
      <==> s.winner == Some(s.tasks[t].owner)
  {
    RunInv(n, run);
    var s := Run(n, run).value;
    if s.winner == None {
      var es := UnsettledCanBeRobbed(s, t);
      assert RunFrom(s, es).Some?;
    } else {
      forall es | RunFrom(s, es).Some? && RunFrom(s, es).value.base.Some?
        ensures RunFrom(s, es).value.base.value.owner == s.tasks[t].owner
      {
        SettledCannot(s, t, es);
      }
    }
  }

  /** And the window is there: one task reserves and reaches its allocation, another
      claims and sees its owner. */
  lemma TheWindowIsReachable() returns (run: seq<Event>)
    ensures Run(2, run).Some?
    ensures
      var s := Run(2, run).value;
      && |s.tasks| == 2 && s.tasks[1] == LoadBytes(Ft8Scratch, 5, false)
      && s.owner == Some(Ft8Scratch) && s.winner == None
  {
    var a, b, c, d := Reserve(0, Ft8Scratch, 10), Step(0, true), Claim(1, Ft8Scratch, 5), Step(1, true);
    run := [a] + ([b] + ([c] + [d]));
    var s0 := Init(2);
    var s1 := Next(s0, a);
    var s2 := Next(s1, b);
    var s3 := Next(s2, c);
    RunOne(s3, d);
    RunStep(s2, c, [d]);
    RunStep(s1, b, [c] + [d]);
    RunStep(s0, a, [b] + ([c] + [d]));
  }

  /** So a program of two tasks can hand FT8's claim the block FST4 reserved. */
  lemma AClaimIsRobbed() returns (run: seq<Event>)
    ensures Run(2, run).Some?
    ensures
      var s := Run(2, run).value;
      && |s.tasks| == 2 && s.tasks[1].Claimed? && s.tasks[1].owner == Ft8Scratch
      && s.tasks[1].ptr.Some? && s.tasks[1].ptr.value.owner == Fst4Worker
  {
    var before := TheWindowIsReachable();
    RunInv(2, before);
    var s := Run(2, before).value;
    var after := UnsettledCanBeRobbed(s, 1);
    run := before + after;
    RunAppend(Init(2), before, after);
    RunInv(2, run);
    var u := Run(2, run).value;
    assert TaskInv(u, u.tasks[1]);
  }

  // ---- Calls end, and claims are granted ----------------------------------------------------

  /** Own steps a call has left, at most: nobody waits for anybody. */
  function StepsLeft(pc: Pc): nat {
    match pc
    case Cas(_, _) => 4
    case Allocate(_, _) => 3
    case StoreBase(_) => 2
    case StoreBytes(_) => 1
    case GiveUp(_) => 1
    case CheckBase(_, _) => 1
    case LoadOwner(_, _) => 3
    case LoadBytes(_, _, _) => 2
    case LoadBase(_, _, _) => 1
    case _ => 0
  }

  lemma CallsEnd(s: State, t: nat, available: bool)
    requires t < |s.tasks| && StepsLeft(s.tasks[t]) > 0
    ensures Enabled(s, Step(t, available))
    ensures StepsLeft(Next(s, Step(t, available)).tasks[t]) < StepsLeft(s.tasks[t])
  {
  }

  /** Once an allocation has succeeded, a reservation for another owner is refused at
      once, and one for the same owner allocates nothing and says whether the block is
      published. */
  lemma RepeatedReservation(s: State, t: nat, owner: Owner, bytes: nat)
    requires Inv(s) && t < |s.tasks| && s.tasks[t] == Cas(owner, bytes) && s.winner.Some?
    ensures
      var s1 := Next(s, Step(t, true));
      && s1.allocs == s.allocs && s1.owner == s.owner && s1.base == s.base
      && if s.winner != Some(owner) then s1.tasks[t].Reserved? && !s1.tasks[t].ok
         else
           Enabled(s1, Step(t, true)) &&
           var s2 := Next(s1, Step(t, true));
           && s2.allocs == s.allocs && s2.base == s.base && s2.tasks[t].Reserved?
           && (s2.tasks[t].ok <==> s.base.Some?)
  {
  }

  /** With no owner yet it allocates, and succeeds exactly if the allocator does: then the
      block is its owner's and as large as asked, otherwise nothing is left behind. */
  lemma FirstReservation(s: State, t: nat, owner: Owner, bytes: nat)
    requires Inv(s) && t < |s.tasks| && s.tasks[t] == Cas(owner, bytes) && s.owner == None
    ensures Next(s, Step(t, true)).tasks[t] == Allocate(owner, bytes)
    ensures
      var s1 := Next(s, Step(t, true));
      var s2 := Next(s1, Step(t, false));
      var s3 := Next(s2, Step(t, false));
      && s3.tasks[t].Reserved? && !s3.tasks[t].ok
      && s3.owner == None && s3.base == s.base && s3.bytes == s.bytes
    ensures
      var s1 := Next(s, Step(t, true));
      var s2 := Next(s1, Step(t, true));
      var s3 := Next(s2, Step(t, true));
      var s4 := Next(s3, Step(t, true));
      && s4.tasks[t].Reserved? && s4.tasks[t].ok && s4.tasks[t].owner == owner
      && s4.owner == Some(owner) && s4.bytes == bytes
      && s4.base.Some? && s4.base.value.owner == owner && s4.base.value.bytes == bytes
  {
  }

  /** Once a block is published, a claim by itself is handed it exactly when its owner is
      the block's and the block is large enough. */
  lemma PublishedClaim(s: State, t: nat, owner: Owner, bytes: nat)
    requires Inv(s) && t < |s.tasks| && s.tasks[t] == LoadOwner(owner, bytes)
    requires s.base.Some? && s.bytes == s.base.value.bytes
    ensures
      var fits := owner == s.base.value.owner && bytes <= s.base.value.bytes;
      var s1 := Next(s, Step(t, true));
      if s1.tasks[t].Claimed? then !fits && s1.tasks[t].ptr == None
      else
        Enabled(s1, Step(t, true)) &&
        var s2 := Next(s1, Step(t, true));
        if s2.tasks[t].Claimed? then !fits && s2.tasks[t].ptr == None
        else
          Enabled(s2, Step(t, true)) &&
          var s3 := Next(s2, Step(t, true));
          fits && s3.tasks[t].Claimed? && s3.tasks[t].ptr == s.base && s3.base == s.base
  {
    assert s.winner == Some(s.base.value.owner) && s.owner == s.winner;
  }
}

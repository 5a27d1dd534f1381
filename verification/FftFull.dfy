/** The twiddle registry once its eight slots are taken: a lookup of a ninth length never
    returns, and a program that asks for nine lengths gets there. */
module FftFull {

  import opened Common
  import opened FftTables

  // ---- A ninth length -------------------------------------------------------------------

  /** The task is looking `len` up. */
  predicate LooksUp(pc: Pc, len: nat) {
    match pc
    case Idle => false
    case Scan(l, _) => l == len
    case ScanPtr(l, _) => l == len
    case Spin(l) => l == len
    case Rescan(l, _) => l == len
    case RescanPtr(l, _) => l == len
    case Allocate(l) => l == len
    case Find(table, _) => table.len == len
    case StorePtr(table, _) => table.len == len
    case StoreLen(table, _) => table.len == len
    case Unlock(l, _) => l == len
    case Returned(l, _) => l == len
  }

  /** It still has no table to return. */
  predicate EmptyHanded(pc: Pc) {
    pc.Scan? || pc.Spin? || pc.Rescan? || pc.Allocate? || pc.Find?
  }

  /** Full slots stay full, and no lookup of another length is ever past its searches. */
  lemma NinthLengthNeverReturns(n: nat, es: seq<Event>, k: nat, len: nat, u: nat)
    requires Run(n, es).Some? && k <= |es| && Run(n, es[..k]).Some?
    requires FullOfOthers(Run(n, es[..k]).value, len) && u < |Run(n, es).value.tasks|
    ensures FullOfOthers(Run(n, es).value, len)
    ensures LooksUp(Run(n, es).value.tasks[u], len) ==> EmptyHanded(Run(n, es).value.tasks[u])
  {
    RunGrows(n, es, k);
    RunInv(n, es);
    var s := Run(n, es).value;
    assert TaskInv(s, s.tasks[u]);
  }

  /** The steps such a lookup has left, not counting those it waits at the lock. */
  function StepsLeft(pc: Pc): nat {
    match pc
    case Scan(_, i) => 2 * SLOTS + 7 + if i <= SLOTS then SLOTS - i else 0
    case Spin(_) => 2 * SLOTS + 5
    case Rescan(_, i) => SLOTS + 3 + if i <= SLOTS then SLOTS - i else 0
    case Allocate(_) => SLOTS + 2
    case Find(_, i) => 1 + if i <= SLOTS then SLOTS - i else 0
    case _ => 0
  }

  /** Each of its steps but a wait brings it nearer to stopping the program. */
  lemma NinthLengthWearsOut(n: nat, es: seq<Event>, len: nat, t: nat, granted: bool)
    requires Run(n, es).Some? && t < |Run(n, es).value.tasks| && !Run(n, es).value.panicked
    requires FullOfOthers(Run(n, es).value, len) && LooksUp(Run(n, es).value.tasks[t], len)
    ensures
      var s := Run(n, es).value;
      Shape(s) && Enabled(s, Step(t, granted)) &&
      var u := Next(s, Step(t, granted));
      || u.panicked
      || (s.tasks[t].Spin? && s.locked && u == s)
      || (t < |u.tasks| && LooksUp(u.tasks[t], len) && StepsLeft(u.tasks[t]) < StepsLeft(s.tasks[t]))
  {
    RunInv(n, es);
    var s := Run(n, es).value;
    assert TaskInv(s, s.tasks[t]);
    WearsOut(s, len, t, granted);
  }

  lemma WearsOut(s: State, len: nat, t: nat, granted: bool)
    requires Shape(s) && !s.panicked && t < |s.tasks| && TaskInv(s, s.tasks[t])
    requires FullOfOthers(s, len) && LooksUp(s.tasks[t], len)
    ensures Enabled(s, Step(t, granted))
    ensures
      var u := Next(s, Step(t, granted));
      || u.panicked
      || (s.tasks[t].Spin? && s.locked && u == s)
      || (t < |u.tasks| && LooksUp(u.tasks[t], len) && StepsLeft(u.tasks[t]) < StepsLeft(s.tasks[t]))
  {
  }

  // ---- A run that fills the slots ----------------------------------------------------------

  /** One task, idle, with the lengths 1 to `m` installed. */
  function Filled(m: nat): State {
    State(seq(SLOTS, i requires 0 <= i < SLOTS => if i < m then i + 1 else 0),
          seq(SLOTS, i requires 0 <= i < SLOTS => if i < m then Some(Table(i, i + 1)) else None),
          false, m, [Idle], false)
  }

  /** The same, inside a lookup. */
  function Doing(m: nat, pc: Pc): State {
    Filled(m).(tasks := [pc])
  }

  lemma OneTask(s: State, a: Pc, b: Pc)
    requires s.tasks == [a]
    ensures At(s, 0, b) == s.(tasks := [b])
  {
  }

  function Steps(k: nat): seq<Event> {
    seq(k, i => Step(0, true))
  }

  lemma RunSnoc(n: nat, es: seq<Event>, e: Event)
    requires Run(n, es).Some? && Shape(Run(n, es).value) && Enabled(Run(n, es).value, e)
    ensures Run(n, es + [e]) == Some(Next(Run(n, es).value, e))
  {
    assert (es + [e])[..|es|] == es;
  }

  predicate StepsTo(s: State, t: State) {
    |s.lens| == |s.ptrs| == SLOTS && Enabled(s, Step(0, true)) && Next(s, Step(0, true)) == t
  }

  lemma OneStep(es: seq<Event>, s: State, t: State)
    requires Run(1, es) == Some(s) && StepsTo(s, t)
    ensures Run(1, es + Steps(1)) == Some(t)
  {
    RunSnoc(1, es, Step(0, true));
    assert Steps(1) == [Step(0, true)];
  }

  lemma FirstOfSteps(es: seq<Event>, k: nat)
    requires k > 0
    ensures es + Steps(k) == (es + Steps(1)) + Steps(k - 1)
  {
  }

  ghost predicate Loops(at: nat -> State, i: nat, k: nat) {
    forall j: nat :: i <= j < k ==> StepsTo(at(j), at(j + 1))
  }

  /** A loop of the task: from its `i`-th round to its `k`-th. */
  lemma {:induction false} Rounds(es: seq<Event>, at: nat -> State, i: nat, k: nat)
    requires i <= k && Run(1, es) == Some(at(i)) && Loops(at, i, k)
    ensures Run(1, es + Steps(k - i)) == Some(at(k))
    decreases k - i
  {
    if i == k {
      assert es + Steps(0) == es;
    } else {
      OneStep(es, at(i), at(i + 1));
      Rounds(es + Steps(1), at, i + 1, k);
      FirstOfSteps(es, k - i);
    }
  }

  /** The three searches of an installer of length `m + 1`, over `m` slots. */
  function ScanPc(m: nat, i: nat): Pc {
    if i <= SLOTS then Scan(m + 1, i) else Spin(m + 1)
  }

  function RescanPc(m: nat, i: nat): Pc {
    if i <= SLOTS then Rescan(m + 1, i) else Allocate(m + 1)
  }

  function Scanning(m: nat): nat -> State {
    (i: nat) => Doing(m, ScanPc(m, i))
  }

  function Rescanning(m: nat): nat -> State {
    (i: nat) => Doing(m, RescanPc(m, i)).(locked := true)
  }

  function Finding(m: nat): nat -> State {
    (i: nat) => Doing(m, Find(Table(m, m + 1), i)).(locked := true, allocs := m + 1)
  }

  lemma ScanStep(m: nat, i: nat)
    requires m <= SLOTS && i <= SLOTS
    ensures StepsTo(Scanning(m)(i), Scanning(m)(i + 1))
  {
    OneTask(Scanning(m)(i), ScanPc(m, i), ScanPc(m, i + 1));
  }

  lemma RescanStep(m: nat, i: nat)
    requires m <= SLOTS && i <= SLOTS
    ensures StepsTo(Rescanning(m)(i), Rescanning(m)(i + 1))
  {
    OneTask(Rescanning(m)(i), RescanPc(m, i), RescanPc(m, i + 1));
  }

  lemma FindStep(m: nat, i: nat)
    requires i < m <= SLOTS
    ensures StepsTo(Finding(m)(i), Finding(m)(i + 1))
  {
    OneTask(Finding(m)(i), Find(Table(m, m + 1), i), Find(Table(m, m + 1), i + 1));
  }

  lemma TakesLock(m: nat)
    requires m <= SLOTS
    ensures StepsTo(Scanning(m)(SLOTS + 1), Rescanning(m)(0)) && StepsTo(Rescanning(m)(SLOTS + 1), Finding(m)(0))
  {
    OneTask(Scanning(m)(SLOTS + 1), Spin(m + 1), Rescan(m + 1, 0));
    OneTask(Rescanning(m)(SLOTS + 1), Allocate(m + 1), Find(Table(m, m + 1), 0));
  }

  lemma ScanLoops(m: nat)
    requires m <= SLOTS
    ensures Loops(Scanning(m), 0, SLOTS + 1) && Loops(Rescanning(m), 0, SLOTS + 1) && Loops(Finding(m), 0, m)
  {
    forall j: nat | j < SLOTS + 1 ensures StepsTo(Scanning(m)(j), Scanning(m)(j + 1)) { ScanStep(m, j); }
    forall j: nat | j < SLOTS + 1 ensures StepsTo(Rescanning(m)(j), Rescanning(m)(j + 1)) { RescanStep(m, j); }
    forall j: nat | j < m ensures StepsTo(Finding(m)(j), Finding(m)(j + 1)) { FindStep(m, j); }
  }

  lemma Scans(es: seq<Event>, m: nat)
    requires m <= SLOTS && Run(1, es) == Some(Scanning(m)(0))
    ensures Run(1, es + Steps(SLOTS + 1)) == Some(Scanning(m)(SLOTS + 1))
  {
    ScanLoops(m);
    Rounds(es, Scanning(m), 0, SLOTS + 1);
  }

  lemma Rescans(es: seq<Event>, m: nat)
    requires m <= SLOTS && Run(1, es) == Some(Rescanning(m)(0))
    ensures Run(1, es + Steps(SLOTS + 1)) == Some(Rescanning(m)(SLOTS + 1))
  {
    ScanLoops(m);
    Rounds(es, Rescanning(m), 0, SLOTS + 1);
  }

  lemma Finds(es: seq<Event>, m: nat)
    requires m <= SLOTS && Run(1, es) == Some(Finding(m)(0))
    ensures Run(1, es + Steps(m)) == Some(Finding(m)(m))
  {
    ScanLoops(m);
    Rounds(es, Finding(m), 0, m);
  }

  /** Up to the empty slot, or the end of the slots. */
  lemma Searches(es: seq<Event>, m: nat)
    requires m <= SLOTS && Run(1, es) == Some(Filled(m))
    ensures Run(1, Searched(es, m)) == Some(Finding(m)(m))
  {
    var e1 := es + [Call(0, m + 1)];
    RunSnoc(1, es, Call(0, m + 1));
    OneTask(Filled(m), Idle, Scan(m + 1, 0));
    Scans(e1, m);
    TakesLock(m);
    OneStep(e1 + Steps(SLOTS + 1), Scanning(m)(SLOTS + 1), Rescanning(m)(0));
    var e3 := (e1 + Steps(SLOTS + 1)) + Steps(1);
    Rescans(e3, m);
    OneStep(e3 + Steps(SLOTS + 1), Rescanning(m)(SLOTS + 1), Finding(m)(0));
    Finds((e3 + Steps(SLOTS + 1)) + Steps(1), m);
  }

  function Searched(es: seq<Event>, m: nat): seq<Event> {
    ((((es + [Call(0, m + 1)]) + Steps(SLOTS + 1)) + Steps(1)) + Steps(SLOTS + 1)) + Steps(1) + Steps(m)
  }

  /** The table stored, the lock freed, and the task ready for the next. */
  lemma Stores(es: seq<Event>, m: nat)
    requires m < SLOTS && Run(1, es) == Some(Finding(m)(m))
    ensures Run(1, ((((es + Steps(1)) + Steps(1)) + Steps(1)) + Steps(1)) + [Forget(0)]) == Some(Filled(m + 1))
  {
    var s0, table := Finding(m)(m), Table(m, m + 1);
    var s1 := s0.(tasks := [StorePtr(table, m)]);
    var s2 := s0.(tasks := [StoreLen(table, m)], ptrs := Filled(m + 1).ptrs);
    var s3 := s2.(tasks := [Unlock(m + 1, Some(table))], lens := Filled(m + 1).lens);
    var s4 := s3.(tasks := [Returned(m + 1, Some(table))], locked := false);
    StoreSteps(m);
    OneStep(es, s0, s1);
    OneStep(es + Steps(1), s1, s2);
    OneStep((es + Steps(1)) + Steps(1), s2, s3);
    OneStep(((es + Steps(1)) + Steps(1)) + Steps(1), s3, s4);
    RunSnoc(1, (((es + Steps(1)) + Steps(1)) + Steps(1)) + Steps(1), Forget(0));
    OneTask(s4, Returned(m + 1, Some(table)), Idle);
  }

  lemma StoreSteps(m: nat)
    requires m < SLOTS
    ensures
      var s0, table := Finding(m)(m), Table(m, m + 1);
      var s1 := s0.(tasks := [StorePtr(table, m)]);
      var s2 := s0.(tasks := [StoreLen(table, m)], ptrs := Filled(m + 1).ptrs);
      var s3 := s2.(tasks := [Unlock(m + 1, Some(table))], lens := Filled(m + 1).lens);
      var s4 := s3.(tasks := [Returned(m + 1, Some(table))], locked := false);
      StepsTo(s0, s1) && StepsTo(s1, s2) && StepsTo(s2, s3) && StepsTo(s3, s4)
  {
    var s0, table := Finding(m)(m), Table(m, m + 1);
    assert s0.ptrs[m := Some(table)] == Filled(m + 1).ptrs && s0.lens[m := m + 1] == Filled(m + 1).lens;
    OneTask(s0, Find(table, m), StorePtr(table, m));
    assert [StorePtr(table, m)][0 := StoreLen(table, m)] == [StoreLen(table, m)];
    assert [StoreLen(table, m)][0 := Unlock(m + 1, Some(table))] == [Unlock(m + 1, Some(table))];
    assert [Unlock(m + 1, Some(table))][0 := Returned(m + 1, Some(table))] == [Returned(m + 1, Some(table))];
  }

  /** A program that installs the lengths 1 to `m`. */
  lemma {:induction false} Fills(m: nat) returns (es: seq<Event>)
    requires m <= SLOTS
    ensures Run(1, es) == Some(Filled(m))
  {
    if m == 0 {
      es := [];
      assert Init(1) == Filled(0);
    } else {
      var before := Fills(m - 1);
      Searches(before, m - 1);
      var found := Searched(before, m - 1);
      Stores(found, m - 1);
      es := ((((found + Steps(1)) + Steps(1)) + Steps(1)) + Steps(1)) + [Forget(0)];
    }
  }

  /** The slots can be filled, and then asking for a ninth length stops the program. */
  lemma NineLengthsStop() returns (full: seq<Event>, es: seq<Event>)
    ensures Run(1, full).Some? && FullOfOthers(Run(1, full).value, 9) && !Run(1, full).value.panicked
    ensures full < es && es[|full|] == Call(0, 9) && Run(1, es).Some? && Run(1, es).value.panicked
  {
    full := Fills(SLOTS);
    Searches(full, SLOTS);
    var found := Searched(full, SLOTS);
    var s := Finding(SLOTS)(SLOTS);
    OneStep(found, s, s.(panicked := true));
    es := found + Steps(1);
  }
}

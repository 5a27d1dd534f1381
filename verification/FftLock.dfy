/** The install lock of the twiddle registry
    (embedded-poc/embedded-shared/src/esp_dsp_fft.rs, `install_fc32_table`): it is taken
    exactly while a task is inside, every task inside gets out, and so a lookup that
    has, or still finds, a slot for its length returns its table. */
module FftLock {

  import opened Common
  import opened FftTables
  import opened FftFull

  // ---- Held exactly while someone is inside -------------------------------------------------

  ghost predicate HeldBy(s: State, h: nat) {
    h < |s.tasks| && Holder(s.tasks[h])
  }

  ghost predicate Held(s: State) {
    exists h: nat :: HeldBy(s, h)
  }

  lemma StepHeld(s: State, e: Event)
    requires Inv(s) && Enabled(s, e) && (s.locked <==> Held(s))
    ensures Next(s, e).locked <==> Held(Next(s, e))
  {
    var s', t := Next(s, e), e.task;
    LockMoves(s, e);
    LeavingFrees(s, e);
    StepExclusion(s, e);
    if s'.locked && s.locked {
      var h: nat :| HeldBy(s, h);
      assert HeldBy(s', h);
    } else if s'.locked {
      assert HeldBy(s', t);
    }
  }

  /** The lock is taken only on the way in and freed on the way out. */
  lemma LeavingFrees(s: State, e: Event)
    requires Inv(s) && Enabled(s, e)
    ensures
      var s', t := Next(s, e), e.task;
      && |s'.tasks| == |s.tasks|
      && (!s.locked && s'.locked ==> Holder(s'.tasks[t]))
      && (Holder(s.tasks[t]) && !Holder(s'.tasks[t]) ==> !s'.locked)
  {
    assert TaskInv(s, s.tasks[e.task]);
  }

  /** On every run the lock is taken if and only if some task is inside the critical
      section, and then only one is. */
  lemma {:induction false} LockedIffHeld(n: nat, es: seq<Event>)
    requires Run(n, es).Some?
    ensures Run(n, es).value.locked <==> Held(Run(n, es).value)
    ensures forall h: nat, g: nat :: HeldBy(Run(n, es).value, h) && HeldBy(Run(n, es).value, g) ==> h == g
  {
    RunInv(n, es);
    if es != [] {
      var last := |es| - 1;
      LockedIffHeld(n, es[..last]);
      RunInv(n, es[..last]);
      StepHeld(Run(n, es[..last]).value, es[last]);
    }
  }

  // ---- Every task inside gets out --------------------------------------------------------------

  /** Own steps a lookup has before it returns, at most, not counting waits. */
  function Left(pc: Pc): nat {
    match pc
    case Scan(_, i) => 24 + if i <= SLOTS then SLOTS - i else 0
    case ScanPtr(_, _) => 1
    case Spin(_) => 23
    case Rescan(_, i) => 14 + if i <= SLOTS then SLOTS - i else 0
    case RescanPtr(_, _) => 2
    case Allocate(_) => 13
    case Find(_, i) => 4 + if i <= SLOTS then SLOTS - i else 0
    case StorePtr(_, _) => 3
    case StoreLen(_, _) => 2
    case Unlock(_, _) => 1
    case _ => 0
  }

  predicate Underway(pc: Pc, len: nat) {
    LooksUp(pc, len) && !pc.Returned?
  }

  /** Each step of a lookup but a wait at the lock brings it nearer to its return; the
      program stops only where the heap refuses or eight other lengths are installed. */
  lemma StepNearer(s: State, t: nat, len: nat, granted: bool)
    requires Inv(s) && !s.panicked && t < |s.tasks| && Underway(s.tasks[t], len)
    ensures Enabled(s, Step(t, granted))
    ensures
      var pc, u := s.tasks[t], Next(s, Step(t, granted));
      if u.panicked then (pc.Allocate? && !granted) || FullOfOthers(s, len)
      else if pc.Spin? && s.locked then u == s
      else
        && |u.tasks| == |s.tasks| && u.tasks == s.tasks[t := u.tasks[t]]
        && LooksUp(u.tasks[t], len) && Left(u.tasks[t]) < Left(pc)
  {
    assert TaskInv(s, s.tasks[t]);
    var pc := s.tasks[t];
    if pc.Find? && pc.i >= SLOTS {
      assert FullOfOthers(s, len);
    }
  }

  /** A waiting task waits for another, which can step. */
  lemma SomeoneIsInside(n: nat, es: seq<Event>, t: nat, granted: bool) returns (h: nat)
    requires Run(n, es).Some? && !Run(n, es).value.panicked && t < |Run(n, es).value.tasks|
    requires Run(n, es).value.tasks[t].Spin? && Run(n, es).value.locked
    ensures HeldBy(Run(n, es).value, h) && h != t && Enabled(Run(n, es).value, Step(h, granted))
  {
    LockedIffHeld(n, es);
    var s := Run(n, es).value;
    h :| HeldBy(s, h);
  }

  /** The length a task inside is looking up. */
  function LenOf(pc: Pc): nat
    requires Holder(pc)
  {
    match pc
    case Rescan(len, _) => len
    case RescanPtr(len, _) => len
    case Allocate(len) => len
    case Find(table, _) => table.len
    case StorePtr(table, _) => table.len
    case StoreLen(table, _) => table.len
    case Unlock(len, _) => len
  }

  /** Task `h` is inside after every event from `k` on. */
  ghost predicate StaysInside(n: nat, es: seq<Event>, k: nat, h: nat) {
    && Run(n, es).Some? && HeldBy(Run(n, es).value, h)
    && (|es| > k ==> StaysInside(n, es[..|es| - 1], k, h))
  }

  lemma InsideStep(s: State, e: Event, h: nat)
    requires Inv(s) && Enabled(s, e) && HeldBy(s, h) && HeldBy(Next(s, e), h) && !Next(s, e).panicked
    ensures (if e.task == h then 1 else 0) + Left(Next(s, e).tasks[h]) <= Left(s.tasks[h])
  {
    if e.task == h {
      StepNearer(s, h, LenOf(s.tasks[h]), e.granted);
    } else {
      LockMoves(s, e);
    }
  }

  /** A task that stays inside from event `k` on uses up its steps accordingly, so within
      22 of its own steps it is out or the program has stopped. */
  lemma {:induction false} InsideIsBounded(n: nat, es: seq<Event>, k: nat, h: nat)
    requires Run(n, es).Some? && !Run(n, es).value.panicked && k <= |es| && StaysInside(n, es, k, h)
    ensures Run(n, es[..k]).Some? && HeldBy(Run(n, es[..k]).value, h)
    ensures StepsSince(es, k, h) + Left(Run(n, es).value.tasks[h]) <= Left(Run(n, es[..k]).value.tasks[h]) <= 22
  {
    if k < |es| {
      var last := |es| - 1;
      assert es[..last][..k] == es[..k];
      InsideIsBounded(n, es[..last], k, h);
      RunInv(n, es[..last]);
      InsideStep(Run(n, es[..last]).value, es[last], h);
    } else {
      assert es[..k] == es;
    }
  }

  // ---- A lookup that fits returns ----------------------------------------------------------------

  /** Nothing else is inside, so the task need not wait. */
  predicate Free(s: State, t: nat)
    requires t < |s.tasks|
  {
    !s.locked || Holder(s.tasks[t])
  }

  /** What one step of such a task keeps. */
  lemma FreeStep(s: State, t: nat, len: nat)
    requires Inv(s) && !s.panicked && t < |s.tasks| && Underway(s.tasks[t], len) && Free(s, t) && !FullOfOthers(s, len)
    ensures Enabled(s, Step(t, true))
    ensures
      var u := Next(s, Step(t, true));
      && !u.panicked && |u.tasks| == |s.tasks| && u.tasks == s.tasks[t := u.tasks[t]]
      && LooksUp(u.tasks[t], len) && Left(u.tasks[t]) < Left(s.tasks[t]) && Free(u, t)
      && |u.lens| == |s.lens| && (forall j :: 0 <= j < |s.lens| && u.lens[j] != s.lens[j] ==> s.lens[j] == 0 && u.lens[j] == len)
      && !FullOfOthers(u, len)
      && (u.tasks[t].Returned? ==> !u.locked || u.locked == s.locked)
      && (u.tasks[t].Returned? && Holder(s.tasks[t]) ==> !u.locked)
  {
    StepNearer(s, t, len, true);
    LockMoves(s, Step(t, true));
    LeavingFrees(s, Step(t, true));
    assert TaskInv(s, s.tasks[t]);
    LensKept(s, t, len);
  }

  lemma LensKept(s: State, t: nat, len: nat)
    requires Inv(s) && !s.panicked && t < |s.tasks| && Underway(s.tasks[t], len) && !FullOfOthers(s, len)
    requires Enabled(s, Step(t, true))
    ensures
      var u := Next(s, Step(t, true));
      && |u.lens| == |s.lens| && (forall j :: 0 <= j < |s.lens| && u.lens[j] != s.lens[j] ==> s.lens[j] == 0 && u.lens[j] == len)
      && !FullOfOthers(u, len)
  {
    assert TaskInv(s, s.tasks[t]);
    var u := Next(s, Step(t, true));
    var i :| 0 <= i < SLOTS && (s.lens[i] == 0 || s.lens[i] == len);
    assert u.lens[i] == 0 || u.lens[i] == len;
  }

  /** `k` steps of task `t`, its allocations granted. */
  function Alone(t: nat, k: nat): seq<Event> {
    seq(k, i => Step(t, true))
  }

  lemma AloneNext(es: seq<Event>, t: nat, k: nat)
    ensures es + Alone(t, k + 1) == (es + [Step(t, true)]) + Alone(t, k)
  {
  }

  /** From `s` to `u` task `t` has returned the table of `len` and left the lock free;
      nobody else has moved, and no slot has got another length than this. */
  ghost predicate Completed(s: State, u: State, t: nat, len: nat) {
    && !u.panicked && !u.locked && t < |u.tasks| == |s.tasks| && u.tasks == s.tasks[t := u.tasks[t]]
    && u.tasks[t].Returned? && u.tasks[t].len == len
    && u.tasks[t].ptr.Some? && u.tasks[t].ptr.value.len == len
    && Shape(s) && Shape(u) && Installed(u, len, u.tasks[t].ptr)
    && forall j :: 0 <= j < SLOTS && u.lens[j] != s.lens[j] ==> s.lens[j] == 0 && u.lens[j] == len
  }

  lemma CompletedEarlier(s: State, v: State, u: State, t: nat, len: nat)
    requires Completed(v, u, t, len) && t < |s.tasks| == |v.tasks| && v.tasks == s.tasks[t := v.tasks[t]] && Shape(s)
    requires len > 0 && forall j :: 0 <= j < SLOTS && v.lens[j] != s.lens[j] ==> s.lens[j] == 0 && v.lens[j] == len
    ensures Completed(s, u, t, len)
  {
  }

  lemma CompletedHere(s: State, t: nat, len: nat)
    requires Inv(s) && !s.panicked && t < |s.tasks| && s.tasks[t].Returned? && s.tasks[t].len == len && Free(s, t)
    ensures Completed(s, s, t, len)
  {
    assert TaskInv(s, s.tasks[t]);
  }

  /** A lookup whose length is installed, or for which a slot is free, and that need not
      wait, returns its table by itself within its steps. */
  lemma {:induction false} ReturnsAlone(n: nat, es: seq<Event>, t: nat, len: nat) returns (k: nat)
    requires Run(n, es).Some? && !Run(n, es).value.panicked && t < |Run(n, es).value.tasks| && len > 0
    requires LooksUp(Run(n, es).value.tasks[t], len) && Free(Run(n, es).value, t)
    requires !FullOfOthers(Run(n, es).value, len)
    ensures k <= Left(Run(n, es).value.tasks[t]) && Run(n, es + Alone(t, k)).Some?
    ensures Completed(Run(n, es).value, Run(n, es + Alone(t, k)).value, t, len)
    decreases Left(Run(n, es).value.tasks[t])
  {
    var s := Run(n, es).value;
    RunInv(n, es);
    if s.tasks[t].Returned? {
      k := 0;
      assert es + Alone(t, 0) == es;
      CompletedHere(s, t, len);
    } else {
      var e := Step(t, true);
      FreeStep(s, t, len);
      RunSnoc(n, es, e);
      var rest := ReturnsAlone(n, es + [e], t, len);
      k := rest + 1;
      AloneNext(es, t, rest);
      CompletedEarlier(s, Next(s, e), Run(n, (es + [e]) + Alone(t, rest)).value, t, len);
    }
  }

  lemma LenPositive(n: nat, es: seq<Event>, t: nat, len: nat)
    requires Run(n, es).Some? && t < |Run(n, es).value.tasks| && LooksUp(Run(n, es).value.tasks[t], len)
    ensures len > 0
  {
    RunInv(n, es);
    assert TaskInv(Run(n, es).value, Run(n, es).value.tasks[t]);
  }

  /** The one inside gets out by itself, if its own length is installed or still fits. */
  lemma HolderGetsOut(n: nat, es: seq<Event>, h: nat) returns (k: nat)
    requires Run(n, es).Some? && !Run(n, es).value.panicked && HeldBy(Run(n, es).value, h)
    requires !FullOfOthers(Run(n, es).value, LenOf(Run(n, es).value.tasks[h]))
    ensures k <= 22 && Run(n, es + Alone(h, k)).Some?
    ensures Completed(Run(n, es).value, Run(n, es + Alone(h, k)).value, h, LenOf(Run(n, es).value.tasks[h]))
  {
    LenPositive(n, es, h, LenOf(Run(n, es).value.tasks[h]));
    k := ReturnsAlone(n, es, h, LenOf(Run(n, es).value.tasks[h]));
  }

  /** The lookup's length is installed, or is the one inside's, or fits beside it. */
  predicate FitsBeside(s: State, len: nat, other: nat)
    requires |s.lens| == SLOTS
  {
    len in s.lens || len == other || s.lens[SLOTS - 2] == 0
  }

  /** A lookup that has to wait returns its table once the one inside is out: with that
      one's steps first, at most 22, and then its own. */
  lemma WaiterReturns(n: nat, es: seq<Event>, h: nat, t: nat, len: nat) returns (k: nat, m: nat)
    requires Run(n, es).Some? && !Run(n, es).value.panicked && HeldBy(Run(n, es).value, h)
    requires t < |Run(n, es).value.tasks| && t != h && Underway(Run(n, es).value.tasks[t], len)
    requires !FullOfOthers(Run(n, es).value, LenOf(Run(n, es).value.tasks[h]))
    requires |Run(n, es).value.lens| == SLOTS && FitsBeside(Run(n, es).value, len, LenOf(Run(n, es).value.tasks[h]))
    ensures k <= 22 && m <= Left(Run(n, es).value.tasks[t])
    ensures Run(n, es + Alone(h, k)).Some? && Run(n, (es + Alone(h, k)) + Alone(t, m)).Some?
    ensures Completed(Run(n, es + Alone(h, k)).value, Run(n, (es + Alone(h, k)) + Alone(t, m)).value, t, len)
  {
    var s := Run(n, es).value;
    LenPositive(n, es, t, len);
    k := HolderGetsOut(n, es, h);
    RunInv(n, es);
    RunInv(n, es + Alone(h, k));
    StillFits(s, Run(n, es + Alone(h, k)).value, h, len, LenOf(s.tasks[h]));
    m := ReturnsAlone(n, es + Alone(h, k), t, len);
  }

  lemma StillFits(s: State, u: State, h: nat, len: nat, other: nat)
    requires SlotsInv(s) && SlotsInv(u) && len > 0 && FitsBeside(s, len, other) && Completed(s, u, h, other)
    ensures !FullOfOthers(u, len)
  {
    if len in s.lens {
      var i :| 0 <= i < SLOTS && s.lens[i] == len;
      assert u.lens[i] == len;
    } else if len == other {
      var i :| 0 <= i < SLOTS && u.lens[i] == other;
    } else {
      assert s.lens[SLOTS - 1] == 0;
      assert u.lens[SLOTS - 2] == 0 || u.lens[SLOTS - 1] == 0;
    }
  }
}

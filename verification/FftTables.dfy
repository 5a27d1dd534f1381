/** The install-once twiddle-table registry
    (embedded-poc/embedded-shared/src/esp_dsp_fft.rs, `fc32_table`,
    `install_fc32_table`, `install_fc32_table_locked`): readers scan the slots
    without a lock, installers serialise on a spin lock, store the pointer before
    the length, and never write a slot twice.

    Any number of tasks run any mix of lookups; each atomic load or store is one
    step. Memory is sequentially consistent in the model. */
module FftTables {
  import opened Common

  /** A heap block, identified by when it was granted, and the length its
      twiddle table was generated for. */
  datatype Table = Table(id: nat, len: nat)

  const SLOTS: nat := 8

  /** A task's place in one `fc32_table(len)` call. */
  datatype Pc =
    | Idle
    | Scan(len: nat, i: nat)            // lock-free scan: about to load length i
    | ScanPtr(len: nat, i: nat)         // matched: about to load pointer i
    | Spin(len: nat)                    // about to try the install lock
    | Rescan(len: nat, i: nat)          // under the lock: about to load length i
    | RescanPtr(len: nat, i: nat)       // matched under the lock
    | Allocate(len: nat)                // about to allocate and generate
    | Find(table: Table, i: nat)        // about to load length i, looking for 0
    | StorePtr(table: Table, i: nat)
    | StoreLen(table: Table, i: nat)
    | Unlock(len: nat, ptr: Option<Table>)
    | Returned(len: nat, ptr: Option<Table>)

  datatype State = State(
    lens: seq<nat>,             // FC32_TABLE_LENS, 0 when empty
    ptrs: seq<Option<Table>>,   // FC32_TABLE_PTRS, None for null
    locked: bool,
    allocs: nat,                 // blocks allocated so far
    tasks: seq<Pc>,
    panicked: bool              // allocation failed, or a ninth length: the program stops
  )

  datatype Event =
    | Call(task: nat, len: nat)
    | Step(task: nat, granted: bool)  // granted: what the heap answers, when asked
    | Forget(task: nat)                 // the caller is done with the returned pointer

  function Init(n: nat): State {
    State(seq(SLOTS, _ => 0), seq(SLOTS, _ => None), false, 0, seq(n, _ => Idle), false)
  }

  ghost predicate Shape(s: State) {
    |s.lens| == |s.ptrs| == SLOTS
  }

  predicate Enabled(s: State, e: Event) {
    && !s.panicked
    && e.task < |s.tasks|
    && match e
       case Call(t, len) => s.tasks[t].Idle? && len > 0
       case Step(t, _) => !s.tasks[t].Idle? && !s.tasks[t].Returned?
       case Forget(t) => s.tasks[t].Returned?
  }

  function At(s: State, t: nat, pc: Pc): State
    requires t < |s.tasks|
  {
    s.(tasks := s.tasks[t := pc])
  }

  function Next(s: State, e: Event): State
    requires Shape(s) && Enabled(s, e)
  {
    match e
    case Call(t, len) => At(s, t, Scan(len, 0))
    case Forget(t) => At(s, t, Idle)
    case Step(t, granted) =>
      match s.tasks[t]
      case Scan(len, i) =>
        if i >= SLOTS then At(s, t, Spin(len))
        else if s.lens[i] == len then At(s, t, ScanPtr(len, i))
        else At(s, t, Scan(len, i + 1))
      case ScanPtr(len, i) => At(s, t, Returned(len, if i < SLOTS then s.ptrs[i] else None))
      case Spin(len) =>
        if s.locked then s else At(s, t, Rescan(len, 0)).(locked := true)
      case Rescan(len, i) =>
        if i >= SLOTS then At(s, t, Allocate(len))
        else if s.lens[i] == len then At(s, t, RescanPtr(len, i))
        else At(s, t, Rescan(len, i + 1))
      case RescanPtr(len, i) => At(s, t, Unlock(len, if i < SLOTS then s.ptrs[i] else None))
      case Allocate(len) =>
        if !granted then s.(panicked := true)
        else At(s, t, Find(Table(s.allocs, len), 0)).(allocs := s.allocs + 1)
      case Find(table, i) =>
        if i >= SLOTS then s.(panicked := true)
        else if s.lens[i] == 0 then At(s, t, StorePtr(table, i))
        else At(s, t, Find(table, i + 1))
      case StorePtr(table, i) =>
        if i < SLOTS then At(s, t, StoreLen(table, i)).(ptrs := s.ptrs[i := Some(table)]) else s
      case StoreLen(table, i) =>
        if i < SLOTS then At(s, t, Unlock(table.len, Some(table))).(lens := s.lens[i := table.len]) else s
      case Unlock(len, ptr) => At(s, t, Returned(len, ptr)).(locked := false)
      case _ => s
  }

  function Run(n: nat, es: seq<Event>): Option<State> {
    if es == [] then Some(Init(n))
    else
      var last := |es| - 1;
      match Run(n, es[..last])
      case None => None
      case Some(t) => if |t.lens| == |t.ptrs| == SLOTS && Enabled(t, es[last]) then Some(Next(t, es[last])) else None
  }

  // ---- Invariant ------------------------------------------------------------------

  /** The task is inside the critical section. */
  predicate Holder(pc: Pc) {
    pc.Rescan? || pc.RescanPtr? || pc.Allocate? || pc.Find? || pc.StorePtr? || pc.StoreLen? || pc.Unlock?
  }

  /** The slots filled so far are a prefix; a length, once visible, stands over
      its table; no two slots carry the same length. */
  ghost predicate SlotsInv(s: State) {
    && Shape(s)
    && (forall i :: 0 <= i < SLOTS && s.lens[i] != 0 ==>
          s.ptrs[i].Some? && s.ptrs[i].value.len == s.lens[i] && s.ptrs[i].value.id < s.allocs)
    && (forall i, j :: 0 <= i < j < SLOTS && s.lens[j] != 0 ==> s.lens[i] != 0 && s.lens[i] != s.lens[j])
  }

  /** `len` is not in any of the first `n` slots. */
  ghost predicate Absent(s: State, len: nat, n: nat)
    requires Shape(s)
  {
    forall i :: 0 <= i < n && i < SLOTS ==> s.lens[i] != len
  }

  /** `ptr` is the table some slot holds for `len`. */
  ghost predicate Installed(s: State, len: nat, ptr: Option<Table>)
    requires Shape(s)
  {
    exists i :: 0 <= i < SLOTS && s.lens[i] == len && s.ptrs[i] == ptr
  }

  ghost predicate TaskInv(s: State, pc: Pc)
    requires Shape(s)
  {
    match pc
    case Idle => true
    case Scan(len, i) => len > 0
    case ScanPtr(len, i) => len > 0 && i < SLOTS && s.lens[i] == len
    case Spin(len) => len > 0
    case Rescan(len, i) => len > 0 && Absent(s, len, i)
    case RescanPtr(len, i) => len > 0 && i < SLOTS && s.lens[i] == len
    case Allocate(len) => len > 0 && Absent(s, len, SLOTS)
    case Find(table, i) =>
      && table.len > 0 && table.id < s.allocs && Absent(s, table.len, SLOTS) && i <= SLOTS
      && forall j :: 0 <= j < i ==> s.lens[j] != 0
    case StorePtr(table, i) =>
      && table.len > 0 && table.id < s.allocs && Absent(s, table.len, SLOTS) && i < SLOTS && s.lens[i] == 0
      && forall j :: 0 <= j < i ==> s.lens[j] != 0
    case StoreLen(table, i) =>
      && table.len > 0 && table.id < s.allocs && Absent(s, table.len, SLOTS) && i < SLOTS && s.lens[i] == 0
      && s.ptrs[i] == Some(table)
      && forall j :: 0 <= j < i ==> s.lens[j] != 0
    case Unlock(len, ptr) => len > 0 && ptr.Some? && Installed(s, len, ptr)
    case Returned(len, ptr) => len > 0 && ptr.Some? && Installed(s, len, ptr)
  }

  /** At most one task is inside the critical section, and only with the lock taken. */
  ghost predicate Exclusion(s: State) {
    && (forall t, u :: 0 <= t < |s.tasks| && 0 <= u < |s.tasks| && Holder(s.tasks[t]) && Holder(s.tasks[u]) ==> t == u)
    && (forall t :: 0 <= t < |s.tasks| && Holder(s.tasks[t]) ==> s.locked)
  }

  ghost predicate Inv(s: State) {
    && SlotsInv(s)
    && Exclusion(s)
    && (forall t :: 0 <= t < |s.tasks| ==> TaskInv(s, s.tasks[t]))
  }

  /** What a step never undoes: a visible slot keeps its length and its table. */
  ghost predicate Grows(s: State, s': State) {
    && Shape(s) && Shape(s')
    && s.allocs <= s'.allocs
    && (forall i :: 0 <= i < SLOTS && s.lens[i] != 0 ==> s'.lens[i] == s.lens[i] && s'.ptrs[i] == s.ptrs[i])
  }

  lemma InstalledSame(s: State, s': State, len: nat, ptr: Option<Table>)
    requires Shape(s) && Shape(s') && s.lens == s'.lens && s.ptrs == s'.ptrs && Installed(s, len, ptr)
    ensures Installed(s', len, ptr)
  {
  }

  /** A task outside the critical section keeps its invariant while slots grow. */
  lemma OutsiderKeeps(s: State, s': State, pc: Pc)
    requires Grows(s, s') && TaskInv(s, pc) && !Holder(pc)
    ensures TaskInv(s', pc)
  {
    if pc.Returned? {
      var i :| 0 <= i < SLOTS && s.lens[i] == pc.len && s.ptrs[i] == pc.ptr;
      assert s'.lens[i] == pc.len && s'.ptrs[i] == pc.ptr;
    }
  }

  lemma StepGrows(s: State, e: Event)
    requires Inv(s) && Enabled(s, e)
    ensures Grows(s, Next(s, e))
  {
  }

  lemma StepSlots(s: State, e: Event)
    requires Inv(s) && Enabled(s, e)
    ensures SlotsInv(Next(s, e))
  {
    if e.Step? && s.tasks[e.task].StoreLen? {
      var table, i := s.tasks[e.task].table, s.tasks[e.task].i;
      var s' := Next(s, e);
      forall a, b | 0 <= a < b < SLOTS && s'.lens[b] != 0 ensures s'.lens[a] != 0 && s'.lens[a] != s'.lens[b] {
        if b == i {
          assert s.lens[a] != 0 && s.lens[a] != table.len;
        } else {
          assert a != i && s.lens[a] != 0 && s.lens[a] != s.lens[b];
        }
      }
    }
  }

  predicate Writing(pc: Pc) {
    pc.Allocate? || pc.Find? || pc.StorePtr? || pc.StoreLen? || pc.Unlock?
  }

  /** A task that scans keeps its own invariant. */
  lemma StepScanner(s: State, e: Event)
    requires Inv(s) && Enabled(s, e) && !Writing(s.tasks[e.task])
    ensures TaskInv(s, Next(s, e).tasks[e.task])
    ensures Next(s, e).lens == s.lens && Next(s, e).ptrs == s.ptrs && Next(s, e).allocs == s.allocs
  {
    assert TaskInv(s, s.tasks[e.task]);
  }

  /** So does the one that installs. */
  lemma StepInstaller(s: State, e: Event)
    requires Inv(s) && Enabled(s, e) && Writing(s.tasks[e.task])
    ensures Shape(Next(s, e)) && TaskInv(Next(s, e), Next(s, e).tasks[e.task])
  {
    var s' := Next(s, e);
    assert TaskInv(s, s.tasks[e.task]);
    match s.tasks[e.task]
    case StoreLen(table, i) => assert s'.lens[i] == table.len && s'.ptrs[i] == Some(table);
    case Unlock(len, ptr) =>
      var i :| 0 <= i < SLOTS && s.lens[i] == len && s.ptrs[i] == ptr;
      assert s'.lens[i] == len && s'.ptrs[i] == ptr;
    case _ =>
  }

  lemma StepExclusion(s: State, e: Event)
    requires Inv(s) && Enabled(s, e)
    ensures Exclusion(Next(s, e))
  {
    LockMoves(s, e);
    assert forall u :: 0 <= u < |s.tasks| && u != e.task ==> Next(s, e).tasks[u] == s.tasks[u];
  }

  /** Only the acting task changes, and it enters the critical section only where it
      takes a free lock and frees the lock only where it leaves. */
  lemma LockMoves(s: State, e: Event)
    requires Inv(s) && Enabled(s, e)
    ensures
      var s', t := Next(s, e), e.task;
      && s'.tasks == s.tasks[t := s'.tasks[t]]
      && (Holder(s'.tasks[t]) && !Holder(s.tasks[t]) ==> !s.locked && s'.locked)
      && (Holder(s.tasks[t]) && Holder(s'.tasks[t]) ==> s'.locked == s.locked)
      && (s.locked && !s'.locked ==> Holder(s.tasks[t]) && !Holder(s'.tasks[t]))
  {
  }

  /** Only the lock holder writes, so another holder's invariant cannot be hit. */
  lemma StepOthers(s: State, e: Event, u: nat)
    requires Inv(s) && Enabled(s, e) && u < |s.tasks| && u != e.task
    ensures Shape(Next(s, e)) && TaskInv(Next(s, e), s.tasks[u])
  {
    var s' := Next(s, e);
    StepGrows(s, e);
    if !Holder(s.tasks[u]) {
      OutsiderKeeps(s, s', s.tasks[u]);
    } else {
      assert !Holder(s.tasks[e.task]);
      assert s'.lens == s.lens && s'.ptrs == s.ptrs && s'.allocs == s.allocs;
      if s.tasks[u].Unlock? {
        var i :| 0 <= i < SLOTS && s.lens[i] == s.tasks[u].len && s.ptrs[i] == s.tasks[u].ptr;
        assert s'.lens[i] == s.tasks[u].len && s'.ptrs[i] == s.tasks[u].ptr;
      }
    }
  }

  lemma StepInv(s: State, e: Event)
    requires Inv(s) && Enabled(s, e)
    ensures Inv(Next(s, e))
  {
    var s' := Next(s, e);
    StepSlots(s, e);
    StepExclusion(s, e);
    if Writing(s.tasks[e.task]) {
      StepInstaller(s, e);
    } else {
      StepScanner(s, e);
      if s'.tasks[e.task].Returned? || s'.tasks[e.task].Unlock? {
        InstalledSame(s, s', s'.tasks[e.task].len, s'.tasks[e.task].ptr);
      }
    }
    forall u: nat | u < |s.tasks| && u != e.task ensures TaskInv(s', s.tasks[u]) && s'.tasks[u] == s.tasks[u] {
      StepOthers(s, e, u);
    }
  }

  lemma {:induction false} RunInv(n: nat, es: seq<Event>)
    requires Run(n, es).Some?
    ensures Inv(Run(n, es).value)
  {
    if es != [] {
      var last := |es| - 1;
      RunInv(n, es[..last]);
      StepInv(Run(n, es[..last]).value, es[last]);
    }
  }

  // ---- Main results ----------------------------------------------------------------

  /** A visible length always stands over a table generated for it, and no length
      is ever in two slots. */
  lemma VisibleLengthHasItsTable(n: nat, es: seq<Event>, i: nat, j: nat)
    requires Run(n, es).Some? && i < SLOTS && j < SLOTS
    ensures
      var s := Run(n, es).value;
      && Shape(s)
      && (s.lens[i] != 0 ==> s.ptrs[i].Some? && s.ptrs[i].value.len == s.lens[i])
      && (s.lens[i] != 0 && s.lens[i] == s.lens[j] ==> i == j)
  {
    RunInv(n, es);
  }

  /** A lookup that has returned got a table generated for the length it asked for. */
  lemma LookupReturnsItsLength(n: nat, es: seq<Event>, t: nat)
    requires Run(n, es).Some? && t < |Run(n, es).value.tasks| && Run(n, es).value.tasks[t].Returned?
    ensures
      var pc := Run(n, es).value.tasks[t];
      pc.ptr.Some? && pc.ptr.value.len == pc.len
  {
    RunInv(n, es);
  }

  lemma {:induction false} RunGrows(n: nat, es: seq<Event>, k: nat)
    requires Run(n, es).Some? && k <= |es|
    ensures Run(n, es[..k]).Some? && Grows(Run(n, es[..k]).value, Run(n, es).value)
  {
    if k == |es| {
      assert es[..k] == es;
      RunInv(n, es);
    } else {
      var last := |es| - 1;
      RunGrows(n, es[..last], k);
      assert es[..last][..k] == es[..k];
      RunInv(n, es[..last]);
      StepGrows(Run(n, es[..last]).value, es[last]);
    }
  }

  /** All lookups of one length return the same pointer, for ever: a result seen
      at any moment of a run equals any result seen at any later moment. */
  lemma LookupsAgreeForever(n: nat, es: seq<Event>, k: nat, t: nat, u: nat)
    requires Run(n, es).Some? && k <= |es|
    requires Run(n, es[..k]).Some? && t < |Run(n, es[..k]).value.tasks| && u < |Run(n, es).value.tasks|
    requires Run(n, es[..k]).value.tasks[t].Returned? && Run(n, es).value.tasks[u].Returned?
    requires Run(n, es[..k]).value.tasks[t].len == Run(n, es).value.tasks[u].len
    ensures Run(n, es[..k]).value.tasks[t].ptr == Run(n, es).value.tasks[u].ptr
  {
    RunInv(n, es);
    RunInv(n, es[..k]);
    RunGrows(n, es, k);
    var s, s' := Run(n, es[..k]).value, Run(n, es).value;
    var pc, pc' := s.tasks[t], s'.tasks[u];
    assert TaskInv(s, pc) && TaskInv(s', pc');
    var i :| 0 <= i < SLOTS && s.lens[i] == pc.len && s.ptrs[i] == pc.ptr;
    var j :| 0 <= j < SLOTS && s'.lens[j] == pc'.len && s'.ptrs[j] == pc'.ptr;
    assert s'.lens[i] == pc.len && s'.ptrs[i] == pc.ptr;
    assert i == j;
  }

  /** All eight slots carry lengths, none of them `len`. */
  predicate FullOfOthers(s: State, len: nat) {
    |s.lens| == SLOTS && forall i :: 0 <= i < SLOTS ==> s.lens[i] != 0 && s.lens[i] != len
  }

  /** The program stops for one of two reasons only: the heap refused a table, or a
      table was generated for a ninth length. */
  lemma PanicHasACause(n: nat, es: seq<Event>)
    requires Run(n, es).Some? && Run(n, es).value.panicked
    ensures es != [] && Run(n, es[..|es| - 1]).Some?
    ensures
      var s, e := Run(n, es[..|es| - 1]).value, es[|es| - 1];
      && !s.panicked && e.Step? && e.task < |s.tasks|
      && match s.tasks[e.task]
         case Allocate(_) => !e.granted
         case Find(table, _) => FullOfOthers(s, table.len)
         case _ => false
  {
    if es != [] {
      var last := |es| - 1;
      RunInv(n, es[..last]);
      var s := Run(n, es[..last]).value;
      assert TaskInv(s, s.tasks[es[last].task]);
    }
  }

  /** Steps task `t` takes from event `k` on. */
  function StepsSince(es: seq<Event>, k: nat, t: nat): nat {
    if |es| <= k then 0
    else StepsSince(es[..|es| - 1], k, t) + if es[|es| - 1].task == t then 1 else 0
  }

  /** Conversely, once an installer with its table in hand faces eight other lengths it
      never stores it: it scans on, one slot a step, and stops the program no later than
      on the step after the eighth slot, whatever the other tasks do meanwhile. */
  lemma {:induction false} NinthLengthStops(n: nat, es: seq<Event>, k: nat, t: nat)
    requires Run(n, es).Some? && k <= |es| && Run(n, es[..k]).Some?
    requires t < |Run(n, es[..k]).value.tasks| && Run(n, es[..k]).value.tasks[t].Find?
    requires FullOfOthers(Run(n, es[..k]).value, Run(n, es[..k]).value.tasks[t].table.len)
    ensures
      var pc, u := Run(n, es[..k]).value.tasks[t], Run(n, es).value;
      var scanned := pc.i + StepsSince(es, k, t);
      && |u.tasks| == |Run(n, es[..k]).value.tasks|
      && (u.panicked || (u.tasks[t] == Find(pc.table, scanned) && FullOfOthers(u, pc.table.len)))
      && (scanned > SLOTS ==> u.panicked)
  {
    RunInv(n, es);
    if k == |es| {
      assert es[..k] == es;
    } else {
      var init, e := es[..|es| - 1], es[|es| - 1];
      assert init[..k] == es[..k];
      NinthLengthStops(n, init, k, t);
      RunInv(n, init);
      ScanStepStays(Run(n, init).value, e, t);
    }
    var u := Run(n, es).value;
    assert u.panicked || TaskInv(u, u.tasks[t]);
  }

  lemma ScanStepStays(s: State, e: Event, t: nat)
    requires Inv(s) && Enabled(s, e) && t < |s.tasks| && s.tasks[t].Find?
    requires FullOfOthers(s, s.tasks[t].table.len)
    ensures
      var pc, u := s.tasks[t], Next(s, e);
      && |u.tasks| == |s.tasks|
      && (u.panicked || (u.tasks[t] == Find(pc.table, pc.i + if e.task == t then 1 else 0)
                         && FullOfOthers(u, pc.table.len)))
  {
    assert TaskInv(s, s.tasks[t]);
    if e.task != t {
      assert !Holder(s.tasks[e.task]);
    }
  }
}

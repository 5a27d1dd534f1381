/** When stage 3 stops claiming (embedded-poc/embedded-shared/src/dual_core.rs,
    `Stage3Stop`, `key_up_deadline` and the deadlines of `run_speculative_slot`), and so
    when the slot's `n_cut` can be other than 0. A deadline is set by the budget, by a
    usable slot-end hint and by the key-up guard, each on its own. */
module Deadlines {

  import opened Common
  import opened Speculative
  import TopK

  const KEY_UP_AFTER_SLOT_END_US: int := 500_000
  const HINT_SANE_US: int := 7_500_000

  /** What bounds a slot: when its bundle arrived, in microseconds, the configured budget
      and guard, in milliseconds, and where the slot is said to end. */
  datatype Limits = Limits(post: int, budgetMs: int, guardMs: int, hint: Option<int>)

  function GuardUs(l: Limits): nat {
    if l.guardMs > 0 then l.guardMs * 1_000 else 0
  }

  /** `key_up_deadline`. */
  function KeyUp(slotEnd: int, guardUs: nat): int {
    slotEnd + KEY_UP_AFTER_SLOT_END_US - guardUs
  }

  /** The hint, unless it is more than half a slot out. */
  function Boundary(l: Limits): Option<int> {
    match l.hint
    case None => None
    case Some(b) => if -HINT_SANE_US <= KeyUp(b, GuardUs(l)) - l.post <= HINT_SANE_US then Some(b) else None
  }

  /** The earlier of two deadlines; None is no deadline at all. */
  function Earlier(a: Option<int>, b: Option<int>): Option<int> {
    if a.Some? && b.Some? then (if a.value <= b.value then a else b)
    else if a.Some? then a else b
  }

  /** `deadline_us` before the slot is received, and after. */
  function EarlyDeadline(l: Limits): Option<int> {
    var budget := if l.budgetMs > 0 then Some(l.post + l.budgetMs * 1_000) else None;
    match Boundary(l)
    case None => budget
    case Some(b) => Earlier(budget, Some(KeyUp(b, GuardUs(l))))
  }

  function LateDeadline(l: Limits, slotEnd: int): Option<int> {
    if GuardUs(l) > 0 then Earlier(EarlyDeadline(l), Some(KeyUp(slotEnd, GuardUs(l)))) else EarlyDeadline(l)
  }

  datatype Stop = Stop(deadline: Option<int>, hasQueue: bool, onSlot: bool, guardUs: nat)

  /** What one poll reads: the clock, the end of the slot it finds queued, and whether
      one is queued when it asks again. */
  datatype Reading = Reading(now: int, peeked: Option<int>, waiting: bool)

  /** `Stage3Stop::reached`. */
  predicate Reached(s: Stop, r: Reading) {
    if s.deadline.Some? && r.now >= s.deadline.value then true
    else if !s.hasQueue then false
    else if s.guardUs > 0 && r.peeked.Some? && r.now >= KeyUp(r.peeked.value, s.guardUs) then true
    else s.onSlot && r.waiting
  }

  function EarlyStop(l: Limits, onSlot: bool): Stop {
    Stop(EarlyDeadline(l), true, onSlot, GuardUs(l))
  }

  function LateStop(l: Limits, slotEnd: int): Stop {
    Stop(LateDeadline(l, slotEnd), false, false, 0)
  }

  ghost predicate CanStop(s: Stop) {
    exists r :: Reached(s, r)
  }

  /** The early batch is split at the boundary. */
  predicate SplitsAt(l: Limits, now: int) {
    var b := Boundary(l);
    b.Some? && b.value > now && (EarlyDeadline(l).Some? ==> EarlyDeadline(l).value > b.value)
  }

  /** A poll stops at every reading from the deadline on, and with no slot queued at none
      before it. A queued slot stops it from that slot's key-up on, less the guard, if
      there is a guard, and at once for a retry. */
  lemma ReachedExactly(s: Stop, r: Reading)
    ensures Reached(s, r) <==>
      || (s.deadline.Some? && s.deadline.value <= r.now)
      || (s.hasQueue && s.guardUs > 0 && r.peeked.Some? && r.peeked.value + 500_000 - s.guardUs <= r.now)
      || (s.hasQueue && s.onSlot && r.waiting)
  {
  }

  /** With no slot queued the clock alone decides: before the slot arrives, the budget
      from the bundle's arrival on and key-up at a usable hint, whichever is first. */
  lemma EarlyStopsAt(l: Limits, now: int, onSlot: bool)
    ensures Reached(EarlyStop(l, onSlot), Reading(now, None, false)) <==>
      || (l.budgetMs > 0 && l.post + l.budgetMs * 1_000 <= now)
      || (Boundary(l).Some? && Boundary(l).value + 500_000 - GuardUs(l) <= now)
  {
  }

  /** After it has, also its own key-up, if there is a guard; no queue is looked at. */
  lemma LateStopsAt(l: Limits, slotEnd: int, r: Reading)
    ensures Reached(LateStop(l, slotEnd), r) <==>
      || (l.budgetMs > 0 && l.post + l.budgetMs * 1_000 <= r.now)
      || (Boundary(l).Some? && Boundary(l).value + 500_000 - GuardUs(l) <= r.now)
      || (l.guardMs > 0 && slotEnd + 500_000 - 1_000 * l.guardMs <= r.now)
  {
  }

  /** A hint is usable exactly when key-up by it is at most 7.5 s from the bundle's
      arrival, either way. */
  lemma UsableHint(l: Limits)
    ensures GuardUs(l) == if l.guardMs > 0 then 1_000 * l.guardMs else 0
    ensures Boundary(l) == None || Boundary(l) == l.hint
    ensures l.hint.Some? ==>
      (Boundary(l).Some? <==>
         l.post - 7_500_000 <= l.hint.value + 500_000 - GuardUs(l) <= l.post + 7_500_000)
  {
  }

  // ---- When there is a deadline -------------------------------------------------------------

  /** Budget, hint or guard: any of them. */
  predicate Limited(l: Limits) {
    l.budgetMs > 0 || Boundary(l).Some? || l.guardMs > 0
  }

  /** First attempts can be stopped exactly when one of the three is set, before the slot
      has arrived and after; a retry on the prefix can always be. */
  lemma StopsExactly(l: Limits, slotEnd: int)
    ensures CanStop(EarlyStop(l, false)) <==> Limited(l)
    ensures CanStop(LateStop(l, slotEnd)) <==> Limited(l)
    ensures LateDeadline(l, slotEnd).Some? <==> Limited(l)
    ensures CanStop(EarlyStop(l, true))
  {
    assert Reached(EarlyStop(l, true), Reading(0, None, true));
    if Limited(l) {
      var late := LateDeadline(l, slotEnd).value;
      assert Reached(LateStop(l, slotEnd), Reading(late, None, false));
      if EarlyDeadline(l).Some? {
        assert Reached(EarlyStop(l, false), Reading(EarlyDeadline(l).value, None, false));
      } else {
        assert Reached(EarlyStop(l, false), Reading(KeyUp(0, GuardUs(l)), Some(0), true));
      }
    }
  }

  /** The guard's documentation says that 0 leaves only the budget. A usable hint is a
      deadline at key-up then too. */
  lemma HintAloneIsADeadline(l: Limits)
    requires l.budgetMs <= 0 && l.guardMs <= 0
    ensures EarlyDeadline(l) == if Boundary(l).Some? then Some(Boundary(l).value + KEY_UP_AFTER_SLOT_END_US) else None
  {
  }

  /** The batch is split exactly when the boundary is ahead, the guard reaches less than
      half a second back from key-up, and the budget lasts beyond the boundary. */
  lemma SplitsExactly(l: Limits, now: int)
    ensures
      SplitsAt(l, now) <==>
        && Boundary(l).Some? && now < Boundary(l).value && l.guardMs < 500
        && (l.budgetMs > 0 ==> Boundary(l).value < l.post + l.budgetMs * 1_000)
  {
  }

  // ---- The slot under its limits ---------------------------------------------------------------

  /** Timing answers these limits allow: a batch is left short, or a stage does not
      start, only where something can stop it. */
  ghost predicate Allowed<P, R>(l: Limits, slotEnd: int, s: Stages<P, R>, t: Timing) {
    && (t.boundaryAhead ==> exists now :: SplitsAt(l, now))
    && (!FirstCovers(t, |s.early|) ==> CanStop(EarlyStop(l, false)))
    && (|t.late| < |s.late| || |t.tail| < |s.tail| ==> CanStop(LateStop(l, slotEnd)))
    && (!t.lateStarts || !t.tailStarts ==> LateDeadline(l, slotEnd).Some?)
  }

  /** With none of the three set, no deadline fires. */
  lemma UnlimitedHasNoDeadline<P, R>(l: Limits, slotEnd: int, s: Stages<P, R>, t: Timing)
    requires !Limited(l) && Allowed(l, slotEnd, s, t)
    ensures NoDeadline(s, t) && !t.boundaryAhead
  {
    StopsExactly(l, slotEnd);
    assert forall now :: !SplitsAt(l, now);
  }

  /** One ready candidate and nothing to retry. */
  function OneReady(): World<nat, nat> {
    World([3], (p: nat) => p, (p: nat) => true, FirstOnes, FirstOnes, (r: Refined<nat>) => [], (r: Refined<nat>) => [])
  }

  /** Pass 2 ends after the deadline. */
  function NoClaimInTime(): Timing {
    Timing(false, false, false, [], [], false, [], true, [], false, true, [], false, [])
  }

  lemma NothingClaimed<P, R>(batch: seq<Refined<P>>, decode: Refined<P> -> seq<R>)
    ensures Stage3(batch, decode, []).results == [] && Stage3(batch, decode, []).failed == []
    ensures Stage3(batch, decode, []).unclaimed == batch
  {
  }

  lemma OneReadySlot(cfg: Config, w: World<nat, nat>, t: Timing)
    requires cfg == Config(1, false, false) && w == OneReady() && t == NoClaimInTime()
    ensures Sane(w)
    ensures
      var s := Play(cfg, w, t);
      |s.early| == 1 && |s.first.unclaimed| == 1 && s.retry == [] && s.late == [] && s.tail == [] && s.lateRetry == []
  {
    var pass1 := Pass1(cfg, w, t);
    assert pass1 == [3] && pass1[..0] == [];
    assert Ready(w, pass1) == [3] && Deferred(w, pass1) == [];
    NothingClaimed(EarlyBatch(cfg, w, pass1), w.decodeEarly);
    NothingRetried(First(w, t, EarlyBatch(cfg, w, pass1)), [], []);
    NothingToTry(w.decodeEarly, t.retries);
    NothingToTry(w.decodeLate, t.late);
    NothingRetried(Stage3([], w.decodeLate, t.late), [], []);
  }

  /** With any of them set there is a slot that cuts a first attempt, with nothing to
      retry: with the budget disabled, by the hint or the guard. */
  lemma LimitedCanCut(l: Limits, slotEnd: int, cfg: Config, w: World<nat, nat>, t: Timing)
    requires Limited(l) && cfg == Config(1, false, false) && w == OneReady() && t == NoClaimInTime()
    ensures
      var s := Play(cfg, w, t);
      Sane(w) && Allowed(l, slotEnd, s, t) && s.retry == [] && Cut(s, t) == 1
  {
    OneReadySlot(cfg, w, t);
    StopsExactly(l, slotEnd);
  }

  /** `n_cut` is documented as 0 when the budget is disabled. Early retries apart, that
      holds of every slot if and only if there is no usable hint and no guard either. */
  lemma CutWithBudgetDisabled(l: Limits, slotEnd: int)
    requires l.budgetMs <= 0
    ensures
      (forall cfg: Config, w: World<nat, nat>, t: Timing ::
         Sane(w) && Allowed(l, slotEnd, Play(cfg, w, t), t) && (!t.gate || Play(cfg, w, t).retry == [])
         ==> Cut(Play(cfg, w, t), t) == 0)
      <==> Boundary(l) == None && l.guardMs <= 0
  {
    if Limited(l) {
      LimitedCanCut(l, slotEnd, Config(1, false, false), OneReady(), NoClaimInTime());
    } else {
      forall cfg: Config, w: World<nat, nat>, t: Timing |
        Sane(w) && Allowed(l, slotEnd, Play(cfg, w, t), t) && (!t.gate || Play(cfg, w, t).retry == [])
        ensures Cut(Play(cfg, w, t), t) == 0
      {
        UnlimitedHasNoDeadline(l, slotEnd, Play(cfg, w, t), t);
        CutWithoutDeadline(cfg, w, t);
      }
    }
  }

  /** Such a slot: no budget, no guard, a hint that it ends a second after the bundle came,
      and the only first attempt still unclaimed half a second past that. It is cut. */
  lemma KeyUpCutsAFirstAttempt(l: Limits, slotEnd: int, cfg: Config, w: World<nat, nat>, t: Timing)
    requires l == Limits(0, 0, 0, Some(1_000_000)) && cfg == Config(1, false, false)
    requires w == OneReady() && t == NoClaimInTime()
    ensures EarlyDeadline(l) == Some(1_500_000) && Reached(EarlyStop(l, false), Reading(1_500_000, None, false))
    ensures
      var s := Play(cfg, w, t);
      Sane(w) && Allowed(l, slotEnd, s, t) && s.retry == [] && Cut(s, t) == 1
  {
    LimitedCanCut(l, slotEnd, cfg, w, t);
  }
}

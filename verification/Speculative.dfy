/** One slot's decode, begun before the slot has ended
    (embedded-poc/embedded-shared/src/dual_core.rs, `run_speculative_slot` around its
    coarse search, `coarse_retry_candidates`, `dedup_by_message`): candidates
    whose audio is already there are tried on the prefix, the rest wait for the
    slot, and failures are retried at their coarse position on what time is left.

    Every clock reading, every peek at the slot queue and every race between the
    two cores is an arbitrary answer in `Timing`. */
module Speculative {

  import opened Common
  import TopK
  import WorkSteal

  type Refined<P> = TopK.Refined<P>

  datatype Config = Config(maxCand: nat, shareCandBudget: bool, fineSync: bool)

  /** What the slot contains: the coarse positions in score order, where fine sync
      moves each, which windows fit the prefix, and what pass 2 and stage 3 make of a
      candidate on the prefix (early) and on the whole slot (late). */
  datatype World<!P, !R> = World(
    found: seq<P>,
    fine: P -> P,
    isReady: P -> bool,
    pass2Early: (seq<P>, nat) -> seq<Refined<P>>,
    pass2Late: (seq<P>, nat) -> seq<Refined<P>>,
    decodeEarly: Refined<P> -> seq<R>,
    decodeLate: Refined<P> -> seq<R>)

  /** How the slot went by. An owner list says who claimed what before the stop
      condition ended that batch; entries past the batch are ignored. */
  datatype Timing = Timing(
    tooLate: bool,          // the slot floor no longer fits before key-up
    fineOk: bool,           // slack allowed fine sync
    boundaryAhead: bool,    // the slot boundary lies between now and the deadline
    toBoundary: seq<Core>,  // claims up to it
    toDeadline: seq<Core>,  // claims from there on, or of the whole batch
    gate: bool,             // early_stop(true).reached() before the retries
    retries: seq<Core>,
    lateStarts: bool,       // now < deadline when the deferred path begins
    late: seq<Core>,
    lateInTime: bool,
    tailStarts: bool,       // now < deadline when the late retries begin
    tail: seq<Core>,
    tailInTime: bool,
    byBoundary: seq<bool>)  // never read: which rows, in order, were decoded by the boundary

  /** Pass 2 returns as many candidates as it may. */
  ghost predicate Selects<P(!new)>(pass2: (seq<P>, nat) -> seq<Refined<P>>) {
    forall cands, k :: |pass2(cands, k)| == Min(|cands|, k)
  }

  ghost predicate Sane<P(!new), R>(w: World<P, R>) {
    Selects(w.pass2Early) && Selects(w.pass2Late)
  }

  /** `pass2_split` with a given quality and drain orders, as a selection. */
  function Pass2Of<P>(q: P -> nat, main: seq<Refined<P>> -> seq<Refined<P>>, worker: seq<Refined<P>> -> seq<Refined<P>>)
    : (seq<P>, nat) -> seq<Refined<P>>
  {
    (cands: seq<P>, k: nat) => TopK.Split(cands, q, k, main, worker)
  }

  /** The two-core selection is one. */
  lemma Pass2Selects<P(!new)>(q: P -> nat, main: seq<Refined<P>> -> seq<Refined<P>>,
                              worker: seq<Refined<P>> -> seq<Refined<P>>)
    requires TopK.Permutes(main) && TopK.Permutes(worker)
    ensures Selects(Pass2Of(q, main, worker))
  {
    forall cands: seq<P>, k: nat ensures |Pass2Of(q, main, worker)(cands, k)| == Min(|cands|, k) {
      TopK.SplitMatchesWhole(cands, q, k, main, worker, main);
    }
  }

  function Claims(owners: seq<Core>, n: nat): (c: seq<Core>)
    ensures |c| <= n
  {
    owners[..Min(|owners|, n)]
  }

  // ---- Retries --------------------------------------------------------------------------

  /** The first place `p` occurs. */
  function PositionOf<P(==)>(s: seq<P>, p: P): (i: Option<nat>)
    ensures i.None? ==> p !in s
    ensures i.Some? ==> i.value < |s| && s[i.value] == p && p !in s[..i.value]
  {
    if s == [] then None
    else if s[0] == p then Some(0)
    else
      match PositionOf(s[1..], p)
      case None => None
      case Some(i) =>
        assert s[..i + 1] == [s[0]] + s[1..][..i];
        Some(i + 1)
  }

  /** The failures that fine sync had moved: those there is something to retry for. */
  function Moved<P(==)>(failed: seq<P>, refined: seq<P>, coarse: seq<P>): seq<P>
    requires coarse == [] || |coarse| == |refined|
  {
    if failed == [] || coarse == [] then []
    else
      var n := |failed| - 1;
      var f := failed[n];
      var i := PositionOf(refined, f);
      Moved(failed[..n], refined, coarse) + if i.Some? && coarse[i.value] != f then [f] else []
  }

  /** Which coarse cells are retried, by index. */
  function RetryCells<P(==)>(moved: seq<P>, refined: seq<P>): (r: seq<nat>)
    ensures |r| <= |moved|
  {
    if moved == [] then []
    else
      var n := |moved| - 1;
      var i := PositionOf(refined, moved[n]);
      RetryCells(moved[..n], refined) + if i.Some? then [i.value] else []
  }

  /** `coarse_retry_candidates`. */
  function CoarseRetry<P(==)>(failed: seq<P>, refined: seq<P>, coarse: seq<P>): seq<P>
    requires coarse == [] || |coarse| == |refined|
  {
    if failed == [] || coarse == [] then []
    else
      var n := |failed| - 1;
      var i := PositionOf(refined, failed[n]);
      CoarseRetry(failed[..n], refined, coarse)
      + if i.Some? && coarse[i.value] != failed[n] then [coarse[i.value]] else []
  }

  method CoarseRetryCandidates<P(==)>(failed: seq<P>, refined: seq<P>, coarse: seq<P>) returns (retry: seq<P>)
    requires coarse == [] || |coarse| == |refined|
    ensures retry == CoarseRetry(failed, refined, coarse)
  {
    retry := [];
    if coarse == [] { return; }
    for n := 0 to |failed|
      invariant retry == CoarseRetry(failed[..n], refined, coarse)
    {
      assert failed[..n + 1][..n] == failed[..n];
      var i := PositionOf(refined, failed[n]);
      if i.Some? && coarse[i.value] != failed[n] {
        retry := retry + [coarse[i.value]];
      }
    }
    assert failed[..|failed|] == failed;
  }

  predicate Distinct<T(==)>(s: seq<T>) {
    forall i, j :: 0 <= i < j < |s| ==> s[i] != s[j]
  }

  /** One retry for each moved failure: at the first coarse cell fine sync had brought to
      the failure's position, and another position than that. */
  ghost predicate Matched<P>(retries: seq<P>, cells: seq<nat>, moved: seq<P>, refined: seq<P>, coarse: seq<P>) {
    && |retries| == |cells| == |moved|
    && forall k :: 0 <= k < |cells| ==>
         && cells[k] < |coarse| == |refined|
         && refined[cells[k]] == moved[k] && moved[k] !in refined[..cells[k]]
         && retries[k] == coarse[cells[k]] != moved[k]
  }

  lemma MatchedSnoc<P>(retries: seq<P>, cells: seq<nat>, moved: seq<P>, refined: seq<P>, coarse: seq<P>, f: P, i: nat)
    requires Matched(retries, cells, moved, refined, coarse)
    requires i < |coarse| == |refined| && refined[i] == f && f !in refined[..i] && coarse[i] != f
    ensures Matched(retries + [coarse[i]], cells + [i], moved + [f], refined, coarse)
  {
  }

  lemma CellsSnoc<P>(moved: seq<P>, f: P, refined: seq<P>)
    ensures
      var i := PositionOf(refined, f);
      RetryCells(moved + [f], refined) == RetryCells(moved, refined) + if i.Some? then [i.value] else []
  {
    assert (moved + [f])[..|moved|] == moved;
  }

  lemma {:induction false} RetryIsOfCells<P>(failed: seq<P>, refined: seq<P>, coarse: seq<P>)
    requires coarse == [] || |coarse| == |refined|
    ensures
      var moved := Moved(failed, refined, coarse);
      Matched(CoarseRetry(failed, refined, coarse), RetryCells(moved, refined), moved, refined, coarse)
  {
    if failed != [] && coarse != [] {
      var n, f := |failed| - 1, failed[|failed| - 1];
      RetryIsOfCells(failed[..n], refined, coarse);
      var moved, i := Moved(failed[..n], refined, coarse), PositionOf(refined, f);
      if i.Some? && coarse[i.value] != f {
        CellsSnoc(moved, f, refined);
        MatchedSnoc(CoarseRetry(failed[..n], refined, coarse), RetryCells(moved, refined), moved, refined, coarse, f, i.value);
      } else {
        assert Moved(failed, refined, coarse) == moved;
      }
    }
  }

  lemma SeenBefore<P>(s: seq<P>, a: nat, b: nat)
    requires a < b < |s|
    ensures s[a] in s[..b]
  {
    assert s[..b][a] == s[a];
  }

  lemma FirstIsUnique<P>(s: seq<P>, a: nat, b: nat)
    requires a < |s| && b < |s| && s[a] == s[b] && s[a] !in s[..a] && s[b] !in s[..b]
    ensures a == b
  {
    if a < b {
      SeenBefore(s, a, b);
    } else if b < a {
      SeenBefore(s, b, a);
    }
  }

  /** One retry per failure that had been moved, at the first coarse cell fine sync
      had brought to that position; so two of them are for the same cell exactly when
      two such failures are at the same position. */
  lemma RetriesShareCells<P>(failed: seq<P>, refined: seq<P>, coarse: seq<P>)
    requires coarse == [] || |coarse| == |refined|
    ensures
      var moved := Moved(failed, refined, coarse);
      && |CoarseRetry(failed, refined, coarse)| == |moved|
      && (Distinct(RetryCells(moved, refined)) <==> Distinct(moved))
  {
    RetryIsOfCells(failed, refined, coarse);
    var moved := Moved(failed, refined, coarse);
    var cells := RetryCells(moved, refined);
    forall i, j | 0 <= i < j < |moved| ensures cells[i] == cells[j] <==> moved[i] == moved[j] {
      assert refined[cells[i]] == moved[i] && refined[cells[j]] == moved[j];
      if moved[i] == moved[j] {
        FirstIsUnique(refined, cells[i], cells[j]);
      }
    }
  }

  /** Two cells that fine sync merged do not share one retry: both failures retry the
      first cell. */
  lemma MergedCellsRetryTwice()
    ensures CoarseRetry([5, 5], [5, 5], [3, 4]) == [3, 3]
  {
    assert [5, 5][..1] == [5] && [5][..0] == [];
    assert PositionOf([5, 5], 5) == Some(0);
    assert CoarseRetry([5], [5, 5], [3, 4]) == [3];
  }

  // ---- One row per message -----------------------------------------------------------

  predicate HasMessage<R, M(==)>(rows: seq<R>, msg: R -> M, m: M) {
    exists i :: 0 <= i < |rows| && msg(rows[i]) == m
  }

  function KeepFirst<R, M(==)>(rows: seq<R>, msg: R -> M): seq<R> {
    if rows == [] then []
    else
      var kept := KeepFirst(rows[..|rows| - 1], msg);
      var last := rows[|rows| - 1];
      if HasMessage(kept, msg, msg(last)) then kept else kept + [last]
  }

  /** `dedup_by_message`, in place. */
  method DedupByMessage<R, M(==)>(rows: seq<R>, msg: R -> M) returns (results: seq<R>)
    ensures results == KeepFirst(rows, msg)
  {
    results := rows;
    var i := 0;
    ghost var n := 0;   // rows examined
    while i < |results|
      invariant 0 <= i <= |results| && 0 <= n <= |rows|
      invariant results[..i] == KeepFirst(rows[..n], msg) && results[i..] == rows[n..]
      decreases |results| - i
    {
      assert results[i] == results[i..][0] == rows[n];
      assert rows[..n + 1][..n] == rows[..n];
      assert rows[n..][1..] == rows[n + 1..];
      if HasMessage(results[..i], msg, msg(results[i])) {
        results := results[..i] + results[i + 1..];
      } else {
        i := i + 1;
      }
      n := n + 1;
    }
    assert results[..i] == results && rows[..n] == rows;
  }

  /** Every message keeps exactly one row, and it is the first that carried it. */
  lemma {:induction false} KeepFirstIsFirst<R, M>(rows: seq<R>, msg: R -> M)
    ensures
      var kept := KeepFirst(rows, msg);
      && |kept| <= |rows|
      && (forall m :: HasMessage(kept, msg, m) <==> HasMessage(rows, msg, m))
      && (forall i, j :: 0 <= i < j < |kept| ==> msg(kept[i]) != msg(kept[j]))
      && (forall i :: 0 <= i < |kept| ==> IsFirst(rows, msg, kept[i]))
  {
    if rows != [] {
      var n := |rows| - 1;
      KeepFirstIsFirst(rows[..n], msg);
      var before, kept, last := KeepFirst(rows[..n], msg), KeepFirst(rows, msg), rows[n];
      assert rows == rows[..n] + [last];
      forall m ensures HasMessage(rows, msg, m) <==> HasMessage(rows[..n], msg, m) || m == msg(last) {
        MessageSnoc(rows[..n], last, msg, m);
      }
      if kept != before {
        forall m ensures HasMessage(kept, msg, m) <==> HasMessage(before, msg, m) || m == msg(last) {
          MessageSnoc(before, last, msg, m);
        }
        assert IsFirst(rows, msg, last) by {
          assert HasMessage(before, msg, msg(last)) <==> HasMessage(rows[..n], msg, msg(last));
          assert rows[n] == last && !HasMessage(rows[..n], msg, msg(rows[n]));
        }
      }
      forall i | 0 <= i < |before| ensures IsFirst(rows, msg, before[i]) {
        var k :| 0 <= k < n && rows[..n][k] == before[i] && !HasMessage(rows[..n][..k], msg, msg(before[i]));
        assert rows[..n][..k] == rows[..k];
      }
    }
  }

  /** `r` is a row of `rows` and no earlier row has its message. */
  ghost predicate IsFirst<R, M>(rows: seq<R>, msg: R -> M, r: R) {
    exists k :: 0 <= k < |rows| && rows[k] == r && !HasMessage(rows[..k], msg, msg(r))
  }

  lemma MessageSnoc<R, M>(rows: seq<R>, last: R, msg: R -> M, m: M)
    ensures HasMessage(rows + [last], msg, m) <==> HasMessage(rows, msg, m) || m == msg(last)
  {
    if HasMessage(rows, msg, m) {
      var i :| 0 <= i < |rows| && msg(rows[i]) == m;
      assert (rows + [last])[i] == rows[i];
    }
    if m == msg(last) {
      assert (rows + [last])[|rows|] == last;
    }
  }

  // ---- The slot, stage by stage ---------------------------------------------------------

  function Map<P, Q>(f: P -> Q, s: seq<P>): (r: seq<Q>)
    ensures |r| == |s|
  {
    seq(|s|, i requires 0 <= i < |s| => f(s[i]))
  }

  function Filter<P>(keep: P -> bool, s: seq<P>): (r: seq<P>)
    ensures |r| <= |s|
  {
    if s == [] then []
    else Filter(keep, s[..|s| - 1]) + if keep(s[|s| - 1]) then [s[|s| - 1]] else []
  }

  function Positions<P>(s: seq<Refined<P>>): seq<P> {
    Map((r: Refined<P>) => r.cand, s)
  }

  /** Pass 1 after fine sync, and the two lists the retries are matched against. */
  function Pass1<P, R>(cfg: Config, w: World<P, R>, t: Timing): seq<P> {
    if cfg.fineSync && t.fineOk then Map(w.fine, w.found) else w.found
  }

  function Coarse<P, R>(cfg: Config, w: World<P, R>, t: Timing): seq<P> {
    if cfg.fineSync && t.fineOk then w.found else []
  }

  function Moveable<P, R>(cfg: Config, w: World<P, R>, t: Timing): (r: seq<P>)
    ensures Coarse(cfg, w, t) == [] || |Coarse(cfg, w, t)| == |r|
  {
    if cfg.fineSync then Pass1(cfg, w, t) else []
  }

  function Ready<P, R>(w: World<P, R>, pass1: seq<P>): seq<P> {
    Filter(w.isReady, pass1)
  }

  function Deferred<P, R>(w: World<P, R>, pass1: seq<P>): seq<P> {
    Filter((p: P) => !w.isReady(p), pass1)
  }

  /** The early half of the candidate budget: all of it, or as many as the first
      `maxCand` candidates have ready. */
  function EarlyBudget<P, R>(cfg: Config, w: World<P, R>, pass1: seq<P>): (n: nat)
    ensures n <= cfg.maxCand
  {
    if cfg.shareCandBudget then |Ready(w, pass1[..Min(|pass1|, cfg.maxCand)])| else cfg.maxCand
  }

  function LateBudget<P, R>(cfg: Config, w: World<P, R>, pass1: seq<P>, nEarlyRefined: nat): nat {
    if cfg.shareCandBudget then cfg.maxCand - EarlyBudget(cfg, w, pass1)
    else if nEarlyRefined <= cfg.maxCand then cfg.maxCand - nEarlyRefined
    else 0
  }

  function EarlyBatch<P, R>(cfg: Config, w: World<P, R>, pass1: seq<P>): seq<Refined<P>> {
    var ready, budget := Ready(w, pass1), EarlyBudget(cfg, w, pass1);
    if ready != [] && budget > 0 then w.pass2Early(ready, budget) else []
  }

  type Stage3Split<P, R> = WorkSteal.Stage3Split<Refined<P>, R>

  function Stage3<P, R>(batch: seq<Refined<P>>, decode: Refined<P> -> seq<R>, owners: seq<Core>): Stage3Split<P, R> {
    WorkSteal.Split(batch, decode, Claims(owners, |batch|))
  }

  /** The first attempts on the prefix, in one go or stopped at the boundary and
      resumed. */
  function First<P, R>(w: World<P, R>, t: Timing, p2: seq<Refined<P>>): Stage3Split<P, R> {
    if t.boundaryAhead then
      var a := Stage3(p2, w.decodeEarly, t.toBoundary);
      var b := Stage3(a.unclaimed, w.decodeEarly, t.toDeadline);
      WorkSteal.Stage3Split(a.results + b.results, a.failed + b.failed, b.unclaimed)
    else Stage3(p2, w.decodeEarly, t.toDeadline)
  }

  /** The retries a batch's failures call for. */
  function RetryOf<P(==), R>(split: Stage3Split<P, R>, refined: seq<P>, coarse: seq<P>): seq<P>
    requires coarse == [] || |coarse| == |refined|
  {
    CoarseRetry(Positions(split.failed), refined, coarse)
  }

  function RetryBatch<P, R>(w: World<P, R>, t: Timing, retry: seq<P>): seq<Refined<P>> {
    if retry != [] && !t.gate then w.pass2Early(retry, |retry|) else []
  }

  function LateBatch<P, R>(w: World<P, R>, t: Timing, deferred: seq<P>, budget: nat): seq<Refined<P>> {
    if deferred != [] && budget > 0 && t.lateStarts then w.pass2Late(deferred, budget) else []
  }

  /** What is left of the early retries, then the late ones. */
  function Tail<P, R>(w: World<P, R>, t: Timing, leftover: seq<Refined<P>>, lateRetry: seq<P>): seq<Refined<P>> {
    if lateRetry != [] && t.tailStarts then leftover + w.pass2Late(lateRetry, |lateRetry|) else leftover
  }

  /** The slot, stage by stage: what each batch was and what became of it. */
  datatype Stages<P, R> = Stages(
    early: seq<Refined<P>>,
    inTime: nat,                        // rows of the early batch by the boundary
    first: Stage3Split<P, R>,
    retry: seq<P>,
    retryBatch: seq<Refined<P>>,
    retried: Stage3Split<P, R>,
    lateDue: nat,                       // first attempts owed to deferred candidates
    late: seq<Refined<P>>,
    lateSplit: Stage3Split<P, R>,
    lateRetry: seq<P>,
    tail: seq<Refined<P>>,
    tailSplit: Stage3Split<P, R>)

  function Play<P(==), R>(cfg: Config, w: World<P, R>, t: Timing): Stages<P, R> {
    var pass1, refined, coarse := Pass1(cfg, w, t), Moveable(cfg, w, t), Coarse(cfg, w, t);
    var early := EarlyBatch(cfg, w, pass1);
    var first := First(w, t, early);
    var retry := RetryOf(first, refined, coarse);
    var retryBatch := RetryBatch(w, t, retry);
    var retried := Stage3(retryBatch, w.decodeEarly, t.retries);
    var deferred, budget := Deferred(w, pass1), LateBudget(cfg, w, pass1, |early|);
    var late := LateBatch(w, t, deferred, budget);
    var lateSplit := Stage3(late, w.decodeLate, t.late);
    var lateRetry := RetryOf(lateSplit, refined, coarse);
    var tail := Tail(w, t, retried.unclaimed, lateRetry);
    Stages(early, InTimeFirst(w, t, early), first, retry, retryBatch, retried,
           Min(|deferred|, budget), late, lateSplit, lateRetry,
           tail, Stage3(tail, w.decodeLate, t.tail))
  }

  function InTimeFirst<P, R>(w: World<P, R>, t: Timing, p2: seq<Refined<P>>): nat {
    if t.boundaryAhead then |Stage3(p2, w.decodeEarly, t.toBoundary).results| else 0
  }

  datatype Out<R> = Out(results: seq<R>, nEarlyRefined: nat, nInTime: nat, nCut: nat, nFallback: int)

  /** Every row, in the order the stages produced them. */
  function AllRows<P, R>(s: Stages<P, R>): seq<R> {
    s.first.results + s.retried.results + s.lateSplit.results + s.tailSplit.results
  }

  /** Rows of a batch that counts only if the whole of it was done by the boundary. */
  function WholeBatch<P, R>(split: Stage3Split<P, R>, done: bool): nat {
    if done then |split.results| else 0
  }

  /** The rows counted as in time: those of first attempts claimed by the boundary, and
      every row of a later batch that had ended by then. An early retry is never
      counted, a row that `dedup_by_message` removes stays counted; `InTimeCount` says
      what the count is worth. */
  function InTime<P, R>(s: Stages<P, R>, t: Timing): nat {
    s.inTime + WholeBatch(s.lateSplit, t.lateInTime) + WholeBatch(s.tailSplit, t.tailInTime)
  }

  /** What a stop condition left of a batch, and what a gate never let start. */
  function CutOf<P, R>(split: Stage3Split<P, R>, started: bool, waiting: nat): nat {
    |split.unclaimed| + if started then 0 else waiting
  }

  function Cut<P, R>(s: Stages<P, R>, t: Timing): nat {
    CutOf(s.first, !t.gate, |s.retry|)
    + CutOf(s.lateSplit, t.lateStarts, s.lateDue)
    + CutOf(s.tailSplit, t.tailStarts, |s.lateRetry|)
  }

  /** Retries that were tried. */
  function Fallback<P, R>(s: Stages<P, R>): int {
    (|s.retryBatch| - |s.retried.unclaimed|) + (|s.tail| - |s.tailSplit.unclaimed|)
  }

  // ---- The slot, in place ---------------------------------------------------------------

  lemma NothingToTry<P, R>(decode: Refined<P> -> seq<R>, owners: seq<Core>)
    ensures Stage3([], decode, owners) == WorkSteal.Stage3Split([], [], [])
  {
  }

  lemma NothingRetried<P, R>(split: Stage3Split<P, R>, refined: seq<P>, coarse: seq<P>)
    requires (coarse == [] || |coarse| == |refined|) && split.failed == []
    ensures RetryOf(split, refined, coarse) == []
  {
    assert Positions(split.failed) == [];
  }

  /** The first-attempt batch: in one piece, or in two around the slot boundary. */
  method FirstAttempts<P, R>(w: World<P, R>, t: Timing, p2: seq<Refined<P>>)
    returns (first: Stage3Split<P, R>, nInTime: nat)
    ensures first == First(w, t, p2) && nInTime == InTimeFirst(w, t, p2)
  {
    nInTime := 0;
    if t.boundaryAhead {
      var inTime := Stage3(p2, w.decodeEarly, t.toBoundary);
      nInTime := |inTime.results|;
      var rest := Stage3(inTime.unclaimed, w.decodeEarly, t.toDeadline);
      first := WorkSteal.Stage3Split(inTime.results + rest.results, inTime.failed + rest.failed, rest.unclaimed);
    } else {
      first := Stage3(p2, w.decodeEarly, t.toDeadline);
    }
  }

  /** The early retries: attempted unless the gate is closed, in which case they are
      cut. */
  method EarlyRetries<P(!new), R>(w: World<P, R>, t: Timing, retry: seq<P>)
    returns (results: seq<R>, nCut: nat, nFallback: int, leftover: seq<Refined<P>>)
    requires Sane(w)
    ensures
      var batch := RetryBatch(w, t, retry);
      var retried := Stage3(batch, w.decodeEarly, t.retries);
      && results == retried.results && leftover == retried.unclaimed
      && nCut == (if t.gate then |retry| else 0)
      && nFallback == |batch| - |retried.unclaimed|
  {
    results, nCut, nFallback, leftover := [], 0, 0, [];
    if retry != [] && !t.gate {
      var n := |retry|;
      var p2 := w.pass2Early(retry, n);
      var fb := Stage3(p2, w.decodeEarly, t.retries);
      nFallback := n - |fb.unclaimed|;
      results := fb.results;
      leftover := fb.unclaimed;
    } else {
      nCut := |retry|;
      NothingToTry(w.decodeEarly, t.retries);
    }
  }

  /** The speculative half, from the batch pass 2 made of the ready candidates (none
      if there was nothing to try): first attempts and early retries. */
  method EarlyPath<P(==,!new), R>(w: World<P, R>, t: Timing, p2: seq<Refined<P>>, refined: seq<P>, coarse: seq<P>)
    returns (results: seq<R>, nInTime: nat, nCut: nat, nFallback: int, leftover: seq<Refined<P>>)
    requires Sane(w) && (coarse == [] || |coarse| == |refined|)
    ensures
      var first := First(w, t, p2);
      var retry := RetryOf(first, refined, coarse);
      var batch := RetryBatch(w, t, retry);
      var retried := Stage3(batch, w.decodeEarly, t.retries);
      && results == first.results + retried.results
      && nInTime == InTimeFirst(w, t, p2)
      && nCut == CutOf(first, !t.gate, |retry|)
      && nFallback == |batch| - |retried.unclaimed|
      && leftover == retried.unclaimed
  {
    results, nInTime, nCut, nFallback, leftover := [], 0, 0, 0, [];
    if p2 != [] {
      var first, inTime := FirstAttempts(w, t, p2);
      nInTime := inTime;
      var retry := CoarseRetryCandidates(Positions(first.failed), refined, coarse);
      var rows, cut, fallback, rest := EarlyRetries(w, t, retry);
      results, nCut := first.results + rows, |first.unclaimed| + cut;
      nFallback, leftover := fallback, rest;
    } else {
      NoEarlyPath(w, t, refined, coarse);
    }
  }

  lemma NoEarlyPath<P, R>(w: World<P, R>, t: Timing, refined: seq<P>, coarse: seq<P>)
    requires coarse == [] || |coarse| == |refined|
    ensures First(w, t, []) == WorkSteal.Stage3Split([], [], []) && InTimeFirst(w, t, []) == 0
    ensures RetryOf(First(w, t, []), refined, coarse) == []
    ensures Stage3([], w.decodeEarly, t.retries) == WorkSteal.Stage3Split([], [], [])
  {
    NothingToTry(w.decodeEarly, t.toBoundary);
    NothingToTry(w.decodeEarly, t.toDeadline);
    NothingToTry(w.decodeEarly, t.retries);
    NothingRetried(First(w, t, []), refined, coarse);
  }

  /** The deferred candidates' first attempts, on the whole slot. */
  method LatePath<P(==,!new), R>(w: World<P, R>, t: Timing, deferred: seq<P>, maxCandLate: nat,
                                 refined: seq<P>, coarse: seq<P>)
    returns (results: seq<R>, nInTime: nat, nCut: nat, lateRetry: seq<P>)
    requires Sane(w) && (coarse == [] || |coarse| == |refined|)
    ensures
      var split := Stage3(LateBatch(w, t, deferred, maxCandLate), w.decodeLate, t.late);
      && results == split.results && lateRetry == RetryOf(split, refined, coarse)
      && nInTime == WholeBatch(split, t.lateInTime)
      && nCut == CutOf(split, t.lateStarts, Min(|deferred|, maxCandLate))
  {
    results, nInTime, nCut, lateRetry := [], 0, 0, [];
    if deferred != [] {
      if maxCandLate > 0 && t.lateStarts {
        var p2 := w.pass2Late(deferred, maxCandLate);
        var late := Stage3(p2, w.decodeLate, t.late);
        nCut := |late.unclaimed|;
        if t.lateInTime {
          nInTime := |late.results|;
        }
        results := late.results;
        lateRetry := CoarseRetryCandidates(Positions(late.failed), refined, coarse);
        return;
      } else if maxCandLate > 0 {
        nCut := Min(|deferred|, maxCandLate);
      }
    }
    NothingToTry(w.decodeLate, t.late);
    NothingRetried(Stage3([], w.decodeLate, t.late), refined, coarse);
  }

  /** The rest of the retries, on the whole slot. */
  method TailPath<P(!new), R>(w: World<P, R>, t: Timing, leftover: seq<Refined<P>>, lateRetry: seq<P>)
    returns (results: seq<R>, nInTime: nat, nCut: nat, nFallback: int)
    ensures
      var tail := Tail(w, t, leftover, lateRetry);
      var split := Stage3(tail, w.decodeLate, t.tail);
      && results == split.results && nFallback == |tail| - |split.unclaimed|
      && nInTime == WholeBatch(split, t.tailInTime)
      && nCut == CutOf(split, t.tailStarts, |lateRetry|)
  {
    results, nInTime, nCut, nFallback := [], 0, 0, 0;
    var tailRetries := leftover;
    if |lateRetry| > 0 && t.tailStarts {
      var p2 := w.pass2Late(lateRetry, |lateRetry|);
      tailRetries := tailRetries + p2;
    } else {
      nCut := |lateRetry|;
    }
    if tailRetries != [] {
      var fb := Stage3(tailRetries, w.decodeLate, t.tail);
      nFallback := |tailRetries| - |fb.unclaimed|;
      nCut := nCut + |fb.unclaimed|;
      if t.tailInTime {
        nInTime := |fb.results|;
      }
      results := fb.results;
    } else {
      NothingToTry(w.decodeLate, t.tail);
    }
  }

  /** The stages in order, and the counters they update. */
  method RunStages<P(==,!new), R>(cfg: Config, w: World<P, R>, t: Timing)
    returns (results: seq<R>, nEarlyRefined: nat, nInTime: nat, nCut: nat, nFallback: int)
    requires Sane(w)
    ensures
      var s := Play(cfg, w, t);
      && results == AllRows(s) && nEarlyRefined == |s.early| && nInTime == InTime(s, t)
      && nCut == Cut(s, t) && nFallback == Fallback(s)
  {
    ghost var s := Play(cfg, w, t);
    var pass1, refined, coarse := Pass1(cfg, w, t), Moveable(cfg, w, t), Coarse(cfg, w, t);
    var p2 := EarlyPass2(cfg, w, pass1);
    nEarlyRefined := |p2|;
    var leftover;
    results, nInTime, nCut, nFallback, leftover := EarlyPath(w, t, p2, refined, coarse);
    assert p2 == s.early && nInTime == s.inTime && leftover == s.retried.unclaimed;
    assert nCut == CutOf(s.first, !t.gate, |s.retry|) && results == s.first.results + s.retried.results;
    assert nFallback == |s.retryBatch| - |s.retried.unclaimed|;
    var maxCandLate := LateBudget(cfg, w, pass1, nEarlyRefined);
    var late, lateInTime, lateCut, lateRetry := LatePath(w, t, Deferred(w, pass1), maxCandLate, refined, coarse);
    assert lateCut == CutOf(s.lateSplit, t.lateStarts, s.lateDue) && lateRetry == s.lateRetry;
    assert late == s.lateSplit.results && lateInTime == WholeBatch(s.lateSplit, t.lateInTime);
    results, nInTime, nCut := results + late, nInTime + lateInTime, nCut + lateCut;
    var tail, tailInTime, tailCut, tailFallback := TailPath(w, t, leftover, lateRetry);
    assert tail == s.tailSplit.results && tailInTime == WholeBatch(s.tailSplit, t.tailInTime);
    assert tailCut == CutOf(s.tailSplit, t.tailStarts, |s.lateRetry|);
    assert tailFallback == |s.tail| - |s.tailSplit.unclaimed|;
    results, nInTime, nCut, nFallback := results + tail, nInTime + tailInTime, nCut + tailCut, nFallback + tailFallback;
  }

  /** The ready candidates' batch, if they have a budget. */
  method EarlyPass2<P, R>(cfg: Config, w: World<P, R>, pass1: seq<P>) returns (p2: seq<Refined<P>>)
    ensures p2 == EarlyBatch(cfg, w, pass1)
  {
    var ready, earlyBudget := Ready(w, pass1), EarlyBudget(cfg, w, pass1);
    p2 := [];
    if ready != [] && earlyBudget > 0 {
      p2 := w.pass2Early(ready, earlyBudget);
    }
  }

  /** `run_speculative_slot`. A slot that cannot be done before key-up is dropped;
      otherwise the stages follow on what the coarse search found. */
  method RunSpeculativeSlot<P(==,!new), R, M(==)>(cfg: Config, w: World<P, R>, t: Timing, msg: R -> M)
    returns (out: Out<R>)
    requires Sane(w)
    ensures
      var s := Play(cfg, w, t);
      if t.tooLate then out == Out([], 0, 0, 0, 0)
      else
        && out.results == KeepFirst(AllRows(s), msg)
        && out.nEarlyRefined == |s.early|
        && out.nInTime == Min(InTime(s, t), |out.results|)
        && out.nCut == Cut(s, t) && out.nFallback == Fallback(s)
  {
    if t.tooLate {
      return Out([], 0, 0, 0, 0);
    }
    var results, nEarlyRefined, nInTime, nCut, nFallback := RunStages(cfg, w, t);
    results := DedupByMessage(results, msg);
    out := Out(results, nEarlyRefined, Min(nInTime, |results|), nCut, nFallback);
  }

  // ---- What the counters mean -------------------------------------------------------------

  lemma BatchLengths<P(!new), R>(cfg: Config, w: World<P, R>, t: Timing)
    requires Sane(w)
    ensures
      var s := Play(cfg, w, t);
      && |s.early| <= EarlyBudget(cfg, w, Pass1(cfg, w, t))
      && s.lateDue <= LateBudget(cfg, w, Pass1(cfg, w, t), |s.early|)
      && |s.late| == (if t.lateStarts then s.lateDue else 0)
  {
  }

  /** Every candidate is ready or deferred. */
  lemma {:induction false} PartitionCounts<P>(isReady: P -> bool, s: seq<P>)
    ensures |Filter(isReady, s)| + |Filter((p: P) => !isReady(p), s)| == |s|
  {
    if s != [] {
      PartitionCounts(isReady, s[..|s| - 1]);
    }
  }

  lemma {:induction false} FilterOfPrefix<P>(keep: P -> bool, s: seq<P>, n: nat)
    requires n <= |s|
    ensures |Filter(keep, s[..n])| <= |Filter(keep, s)|
  {
    if n == |s| {
      assert s[..n] == s;
    } else {
      FilterOfPrefix(keep, s[..|s| - 1], n);
      assert s[..|s| - 1][..n] == s[..n];
    }
  }

  lemma PartitionOf<P, R>(w: World<P, R>, pass1: seq<P>, n: nat)
    requires n <= |pass1|
    ensures |Ready(w, pass1[..n])| <= |Ready(w, pass1)|
    ensures n - |Ready(w, pass1[..n])| <= |Deferred(w, pass1)|
    ensures |Ready(w, pass1)| + |Deferred(w, pass1)| == |pass1|
  {
    var late := (p: P) => !w.isReady(p);
    PartitionCounts(w.isReady, pass1);
    PartitionCounts(w.isReady, pass1[..n]);
    FilterOfPrefix(w.isReady, pass1, n);
    FilterOfPrefix(late, pass1, n);
  }

  /** The arithmetic of the two ways to divide the budget. */
  lemma BudgetArithmetic(share: bool, maxCand: nat, total: nat, ready: nat, readyFirst: nat, early: nat, lateDue: nat)
    requires ready <= total && readyFirst <= ready && Min(total, maxCand) - readyFirst <= total - ready
    requires readyFirst <= maxCand && (total <= maxCand ==> readyFirst == ready)
    requires early == Min(ready, if share then readyFirst else maxCand)
    requires lateDue == Min(total - ready, if share then maxCand - readyFirst else maxCand - early)
    ensures early + lateDue == Min(total, maxCand)
  {
  }

  /** Shared or not, the budget is spent exactly: early and late first attempts owed,
      tried or cut, are together min(pass-1 candidates, `maxCand`). */
  lemma BudgetIsSpentExactly<P(!new), R>(cfg: Config, w: World<P, R>, t: Timing)
    requires Sane(w)
    ensures
      var s := Play(cfg, w, t);
      && |s.early| + s.lateDue == Min(|w.found|, cfg.maxCand)
      && |s.late| == if t.lateStarts then s.lateDue else 0
  {
    BatchLengths(cfg, w, t);
    var pass1 := Pass1(cfg, w, t);
    var n := Min(|pass1|, cfg.maxCand);
    PartitionOf(w, pass1, n);
    if n == |pass1| {
      assert pass1[..n] == pass1;
    }
    EarlyLength(cfg, w, pass1);
    var early := EarlyBatch(cfg, w, pass1);
    BudgetArithmetic(cfg.shareCandBudget, cfg.maxCand, |pass1|, |Ready(w, pass1)|, |Ready(w, pass1[..n])|, |early|,
                     Min(|Deferred(w, pass1)|, LateBudget(cfg, w, pass1, |early|)));
  }

  lemma EarlyLength<P(!new), R>(cfg: Config, w: World<P, R>, pass1: seq<P>)
    requires Sane(w)
    ensures |EarlyBatch(cfg, w, pass1)| == Min(|Ready(w, pass1)|, EarlyBudget(cfg, w, pass1))
  {
  }

  lemma RetryLengths<P(!new), R>(cfg: Config, w: World<P, R>, t: Timing)
    requires Sane(w)
    ensures
      var s := Play(cfg, w, t);
      && |s.retryBatch| == (if t.gate then 0 else |s.retry|)
      && |s.tail| == |s.retried.unclaimed| + (if t.tailStarts then |s.lateRetry| else 0)
  {
  }

  /** First attempts actually made. */
  function Tried<P, R>(s: Stages<P, R>): int {
    (|s.early| - |s.first.unclaimed|) + (|s.late| - |s.lateSplit.unclaimed|)
  }

  /** Nothing is lost and nothing counted twice: every first attempt and every retry
      the slot owed is either tried, and then a retry is in `nFallback`, or in `nCut`. */
  lemma EveryCandidateIsCounted<P(!new), R>(cfg: Config, w: World<P, R>, t: Timing)
    requires Sane(w)
    ensures
      var s := Play(cfg, w, t);
      Tried(s) + Fallback(s) + Cut(s, t) == |s.early| + s.lateDue + |s.retry| + |s.lateRetry|
  {
    BatchLengths(cfg, w, t);
    RetryLengths(cfg, w, t);
  }

  // ---- What each batch is -----------------------------------------------------------------

  /** A filter takes the entries that pass, each where it stands. */
  lemma ConcatSnoc<P>(a: seq<P>, b: seq<P>, x: P)
    ensures a + (b + [x]) == (a + b) + [x]
  {
  }

  lemma FilterSplitsSnoc<P>(keep: P -> bool, a: seq<P>, b: seq<P>, x: P)
    requires Filter(keep, a + b) == Filter(keep, a) + Filter(keep, b)
    ensures Filter(keep, a + (b + [x])) == Filter(keep, a) + Filter(keep, b + [x])
  {
    ConcatSnoc(a, b, x);
    FilterSnoc(keep, a + b, x);
    FilterSnoc(keep, b, x);
    ConcatSnoc(Filter(keep, a), Filter(keep, b), x);
  }

  lemma {:induction false} FilterSplits<P>(keep: P -> bool, a: seq<P>, b: seq<P>)
    ensures Filter(keep, a + b) == Filter(keep, a) + Filter(keep, b)
  {
    if b == [] {
      assert a + b == a;
    } else {
      var init, x := b[..|b| - 1], b[|b| - 1];
      FilterSplits(keep, a, init);
      FilterSplitsSnoc(keep, a, init, x);
      assert b == init + [x];
    }
  }

  lemma FilterSnoc<P>(keep: P -> bool, s: seq<P>, x: P)
    ensures Filter(keep, s + [x]) == if keep(x) then Filter(keep, s) + [x] else Filter(keep, s)
  {
    assert (s + [x])[..|s|] == s;
    assert Filter(keep, s) + [] == Filter(keep, s);
  }

  lemma FilterOne<P>(keep: P -> bool, x: P)
    ensures Filter(keep, [x]) == if keep(x) then [x] else []
  {
    FilterSnoc(keep, [], x);
  }

  /** The places holding an entry that passes. */
  function PlacesOf<P>(keep: P -> bool, s: seq<P>): set<int> {
    set i | 0 <= i < |s| && keep(s[i])
  }

  lemma PlacesSnoc<P>(keep: P -> bool, s: seq<P>)
    requires s != []
    ensures
      var n := |s| - 1;
      n !in PlacesOf(keep, s[..n])
      && PlacesOf(keep, s) == if keep(s[n]) then PlacesOf(keep, s[..n]) + {n} else PlacesOf(keep, s[..n])
  {
  }

  /** It takes as many as there are such places. */
  lemma {:induction false} FilterCounts<P>(keep: P -> bool, s: seq<P>)
    ensures |Filter(keep, s)| == |PlacesOf(keep, s)|
  {
    if s == [] {
      assert PlacesOf(keep, s) == {};
    } else {
      FilterCounts(keep, s[..|s| - 1]);
      PlacesSnoc(keep, s);
    }
  }

  /** The position pass 1 leaves candidate `i` at. */
  function Placed<P, R>(cfg: Config, w: World<P, R>, t: Timing, i: nat): P
    requires i < |w.found|
  {
    if cfg.fineSync && t.fineOk then w.fine(w.found[i]) else w.found[i]
  }

  /** Pass 1 has every candidate found, in order, where fine sync put it if it ran. */
  lemma Pass1Is<P, R>(cfg: Config, w: World<P, R>, t: Timing)
    ensures
      var pass1 := Pass1(cfg, w, t);
      |pass1| == |w.found| && forall i: nat :: i < |pass1| ==> pass1[i] == Placed(cfg, w, t, i)
  {
  }

  /** Shared, the early budget is the number of ready candidates among the first
      `maxCand`, and the late one the rest; otherwise the early half may take all. */
  lemma BudgetsAre<P, R>(cfg: Config, w: World<P, R>, pass1: seq<P>, nEarly: nat)
    ensures cfg.shareCandBudget ==>
      && EarlyBudget(cfg, w, pass1) == |set i | 0 <= i < |pass1| && i < cfg.maxCand && w.isReady(pass1[i])|
      && EarlyBudget(cfg, w, pass1) + LateBudget(cfg, w, pass1, nEarly) == cfg.maxCand
    ensures !cfg.shareCandBudget ==>
      && EarlyBudget(cfg, w, pass1) == cfg.maxCand
      && LateBudget(cfg, w, pass1, nEarly) == if nEarly < cfg.maxCand then cfg.maxCand - nEarly else 0
  {
    var top := pass1[..Min(|pass1|, cfg.maxCand)];
    FilterCounts(w.isReady, top);
    assert PlacesOf(w.isReady, top)
        == (set i | 0 <= i < |pass1| && i < cfg.maxCand && w.isReady(pass1[i]));
  }

  /** Pass 2 on one or the other audio, if there is anything to refine and room for it. */
  function Refining<P>(pass2: (seq<P>, nat) -> seq<Refined<P>>, cands: seq<P>, budget: nat): seq<Refined<P>> {
    if |cands| > 0 && budget > 0 then pass2(cands, budget) else []
  }

  lemma EarlyBatchesAre<P, R>(cfg: Config, w: World<P, R>, t: Timing)
    ensures
      var s, pass1 := Play(cfg, w, t), Pass1(cfg, w, t);
      && s.early == Refining(w.pass2Early, Filter(w.isReady, pass1), EarlyBudget(cfg, w, pass1))
      && s.retryBatch == (if t.gate then [] else Refining(w.pass2Early, s.retry, |s.retry|))
  {
  }

  lemma LateBatchIs<P, R>(w: World<P, R>, t: Timing, deferred: seq<P>, budget: nat)
    ensures LateBatch(w, t, deferred, budget) == if t.lateStarts then Refining(w.pass2Late, deferred, budget) else []
  {
  }

  lemma TailIs<P, R>(w: World<P, R>, t: Timing, leftover: seq<Refined<P>>, lateRetry: seq<P>)
    ensures
      Tail(w, t, leftover, lateRetry)
      == leftover + if t.tailStarts then Refining(w.pass2Late, lateRetry, |lateRetry|) else []
  {
    assert leftover + [] == leftover;
  }

  lemma LateBatchesAre<P, R>(cfg: Config, w: World<P, R>, t: Timing)
    ensures
      var s, pass1 := Play(cfg, w, t), Pass1(cfg, w, t);
      && s.late == LateBatch(w, t, Filter((p: P) => !w.isReady(p), pass1), LateBudget(cfg, w, pass1, |s.early|))
      && s.tail == Tail(w, t, s.retried.unclaimed, s.lateRetry)
  {
  }

  /** The audio each batch is refined on: ready candidates and early retries on the
      prefix, deferred candidates and late retries on the whole slot; early retries left
      over keep what the prefix gave them. */
  lemma BatchesAre<P, R>(cfg: Config, w: World<P, R>, t: Timing)
    ensures
      var s, pass1 := Play(cfg, w, t), Pass1(cfg, w, t);
      var ready, deferred := Filter(w.isReady, pass1), Filter((p: P) => !w.isReady(p), pass1);
      && s.early == Refining(w.pass2Early, ready, EarlyBudget(cfg, w, pass1))
      && s.retryBatch == (if t.gate then [] else Refining(w.pass2Early, s.retry, |s.retry|))
      && s.late == (if t.lateStarts then Refining(w.pass2Late, deferred, LateBudget(cfg, w, pass1, |s.early|)) else [])
      && s.tail == s.retried.unclaimed
                   + if t.tailStarts then Refining(w.pass2Late, s.lateRetry, |s.lateRetry|) else []
  {
    var s, pass1 := Play(cfg, w, t), Pass1(cfg, w, t);
    EarlyBatchesAre(cfg, w, t);
    LateBatchesAre(cfg, w, t);
    LateBatchIs(w, t, Filter((p: P) => !w.isReady(p), pass1), LateBudget(cfg, w, pass1, |s.early|));
    TailIs(w, t, s.retried.unclaimed, s.lateRetry);
  }

  /** The retries are those of that batch's failures, matched against the positions fine
      sync left and found. */
  lemma RetriesAre<P, R>(cfg: Config, w: World<P, R>, t: Timing)
    ensures
      var s := Play(cfg, w, t);
      var refined := if cfg.fineSync then Pass1(cfg, w, t) else [];
      var coarse := if cfg.fineSync && t.fineOk then w.found else [];
      && s.retry == CoarseRetry(Positions(s.first.failed), refined, coarse)
      && s.lateRetry == CoarseRetry(Positions(s.lateSplit.failed), refined, coarse)
  {
  }

  lemma PositionsAre<P>(rs: seq<Refined<P>>)
    ensures |Positions(rs)| == |rs| && forall i :: 0 <= i < |rs| ==> Positions(rs)[i] == rs[i].cand
  {
  }

  lemma {:induction false} KeepsEarlier<R, M>(a: seq<R>, b: seq<R>, msg: R -> M)
    ensures KeepFirst(a, msg) <= KeepFirst(a + b, msg)
  {
    if b == [] {
      assert a + b == a;
    } else {
      assert (a + b)[..|a + b| - 1] == a + b[..|b| - 1];
      KeepsEarlier(a, b[..|b| - 1], msg);
    }
  }

  /** Of two rows of one message the earlier stage's is returned: first attempts before
      early retries, those before the deferred candidates, those before the rest. */
  lemma EarlierStagesWin<P, R, M>(s: Stages<P, R>, msg: R -> M)
    ensures KeepFirst(s.first.results, msg) <= KeepFirst(s.first.results + s.retried.results, msg)
         <= KeepFirst(s.first.results + s.retried.results + s.lateSplit.results, msg) <= KeepFirst(AllRows(s), msg)
    ensures |AllRows(s)|
         == |s.first.results| + |s.retried.results| + |s.lateSplit.results| + |s.tailSplit.results|
  {
    var a := s.first.results;
    var b := a + s.retried.results;
    var c := b + s.lateSplit.results;
    KeepsEarlier(a, s.retried.results, msg);
    KeepsEarlier(b, s.lateSplit.results, msg);
    KeepsEarlier(c, s.tailSplit.results, msg);
  }

  // ---- What was tried -----------------------------------------------------------------------

  /** A stage's outcome is that of trying the batch but its `unclaimed` tail. */
  ghost predicate Honest<P, R>(batch: seq<Refined<P>>, decode: Refined<P> -> seq<R>, out: Stage3Split<P, R>) {
    |out.unclaimed| <= |batch| && WorkSteal.Attempted(batch, decode, |batch| - |out.unclaimed|, out)
  }

  lemma Stage3IsHonest<P, R>(batch: seq<Refined<P>>, decode: Refined<P> -> seq<R>, owners: seq<Core>)
    ensures Honest(batch, decode, Stage3(batch, decode, owners))
  {
    WorkSteal.SplitAttemptsPrefix(batch, decode, Claims(owners, |batch|));
  }

  /** Stopping at the boundary and resuming is one honest batch. */
  lemma FirstIsHonest<P, R>(w: World<P, R>, t: Timing, p2: seq<Refined<P>>)
    ensures Honest(p2, w.decodeEarly, First(w, t, p2))
  {
    if t.boundaryAhead {
      var o1 := Claims(t.toBoundary, |p2|);
      var left := p2[|o1|..];
      WorkSteal.ResumeIsOneCall(p2, w.decodeEarly, o1, Claims(t.toDeadline, |left|));
    } else {
      Stage3IsHonest(p2, w.decodeEarly, t.toDeadline);
    }
  }

  function TriedOf<P, R>(batch: seq<Refined<P>>, out: Stage3Split<P, R>): seq<Refined<P>> {
    if |out.unclaimed| <= |batch| then batch[..|batch| - |out.unclaimed|] else []
  }

  lemma HonestRows<P, R>(batch: seq<Refined<P>>, decode: Refined<P> -> seq<R>, out: Stage3Split<P, R>)
    requires Honest(batch, decode, out)
    ensures batch == TriedOf(batch, out) + out.unclaimed
    ensures multiset(out.results) == multiset(WorkSteal.Rows(decode, TriedOf(batch, out)))
    ensures multiset(out.failed) == multiset(WorkSteal.Failing(decode, TriedOf(batch, out)))
  {
  }

  /** `nFallback` is the retries tried, on the prefix and on the whole slot. */
  lemma FallbackIsTheTried<P, R>(cfg: Config, w: World<P, R>, t: Timing)
    ensures
      var s := Play(cfg, w, t);
      Fallback(s) == |TriedOf(s.retryBatch, s.retried)| + |TriedOf(s.tail, s.tailSplit)|
  {
    StagesAreHonest(cfg, w, t);
  }

  /** Every batch splits into what was tried and what was left, and the rows are those
      of what was tried, each candidate once, on the audio that stage had; early
      retries that were left are tried first in the tail. */
  lemma RowsAreOfTheTried<P, R>(cfg: Config, w: World<P, R>, t: Timing)
    ensures
      var s := Play(cfg, w, t);
      && s.early == TriedOf(s.early, s.first) + s.first.unclaimed
      && s.retryBatch == TriedOf(s.retryBatch, s.retried) + s.retried.unclaimed
      && s.late == TriedOf(s.late, s.lateSplit) + s.lateSplit.unclaimed
      && s.tail == TriedOf(s.tail, s.tailSplit) + s.tailSplit.unclaimed
      && s.retried.unclaimed <= s.tail
    ensures
      var s := Play(cfg, w, t);
      multiset(AllRows(s))
      == multiset(WorkSteal.Rows(w.decodeEarly, TriedOf(s.early, s.first)))
       + multiset(WorkSteal.Rows(w.decodeEarly, TriedOf(s.retryBatch, s.retried)))
       + multiset(WorkSteal.Rows(w.decodeLate, TriedOf(s.late, s.lateSplit)))
       + multiset(WorkSteal.Rows(w.decodeLate, TriedOf(s.tail, s.tailSplit)))
  {
    var s := Play(cfg, w, t);
    StagesAreHonest(cfg, w, t);
    HonestRows(s.early, w.decodeEarly, s.first);
    HonestRows(s.retryBatch, w.decodeEarly, s.retried);
    HonestRows(s.late, w.decodeLate, s.lateSplit);
    HonestRows(s.tail, w.decodeLate, s.tailSplit);
  }

  lemma StagesAreHonest<P, R>(cfg: Config, w: World<P, R>, t: Timing)
    ensures
      var s := Play(cfg, w, t);
      && Honest(s.early, w.decodeEarly, s.first)
      && Honest(s.retryBatch, w.decodeEarly, s.retried)
      && Honest(s.late, w.decodeLate, s.lateSplit)
      && Honest(s.tail, w.decodeLate, s.tailSplit)
      && s.retried.unclaimed <= s.tail
  {
    var s := Play(cfg, w, t);
    FirstIsHonest(w, t, s.early);
    Stage3IsHonest(s.retryBatch, w.decodeEarly, t.retries);
    Stage3IsHonest(s.late, w.decodeLate, t.late);
    Stage3IsHonest(s.tail, w.decodeLate, t.tail);
  }

  // ---- Without a deadline ---------------------------------------------------------------------

  /** The first attempts' claims, before and after the boundary, cover `n` candidates. */
  predicate FirstCovers(t: Timing, n: nat) {
    n <= |t.toDeadline| + if t.boundaryAhead then |t.toBoundary| else 0
  }

  /** No deadline fires in this slot, the boundary may lie ahead or not. A deadline is
      not the budget's alone: `Deadlines` says when there is one. */
  ghost predicate NoDeadline<P, R>(s: Stages<P, R>, t: Timing) {
    && FirstCovers(t, |s.early|) && t.lateStarts && t.tailStarts
    && |t.late| >= |s.late| && |t.tail| >= |s.tail|
  }

  /** What a batch leaves unclaimed. */
  lemma UnclaimedIs<P, R>(batch: seq<Refined<P>>, decode: Refined<P> -> seq<R>, owners: seq<Core>)
    ensures |Stage3(batch, decode, owners).unclaimed| == if |owners| < |batch| then |batch| - |owners| else 0
  {
  }

  lemma FirstUnclaimedIs<P, R>(w: World<P, R>, t: Timing, p2: seq<Refined<P>>)
    ensures First(w, t, p2).unclaimed == [] <==> FirstCovers(t, |p2|)
  {
    if t.boundaryAhead {
      UnclaimedIs(p2, w.decodeEarly, t.toBoundary);
      UnclaimedIs(Stage3(p2, w.decodeEarly, t.toBoundary).unclaimed, w.decodeEarly, t.toDeadline);
    } else {
      UnclaimedIs(p2, w.decodeEarly, t.toDeadline);
    }
  }

  lemma CutParts<P, R>(s: Stages<P, R>, t: Timing)
    ensures
      Cut(s, t) == 0 <==>
        && s.first.unclaimed == [] && s.lateSplit.unclaimed == [] && s.tailSplit.unclaimed == []
        && (t.gate ==> s.retry == []) && (t.lateStarts || s.lateDue == 0) && (t.tailStarts || s.lateRetry == [])
  {
  }

  lemma SlotClaims<P, R>(cfg: Config, w: World<P, R>, t: Timing)
    ensures
      var s := Play(cfg, w, t);
      && (s.first.unclaimed == [] <==> FirstCovers(t, |s.early|))
      && (s.lateSplit.unclaimed == [] <==> |t.late| >= |s.late|)
      && (s.tailSplit.unclaimed == [] <==> |t.tail| >= |s.tail|)
  {
    var s := Play(cfg, w, t);
    FirstUnclaimedIs(w, t, s.early);
    UnclaimedIs(s.late, w.decodeLate, t.late);
    UnclaimedIs(s.tail, w.decodeLate, t.tail);
  }

  /** `n_cut` is 0 exactly when every batch was claimed to its end and every gate that
      something waited at was open, on any timing. */
  lemma CutIsZeroExactly<P, R>(cfg: Config, w: World<P, R>, t: Timing)
    ensures
      var s := Play(cfg, w, t);
      Cut(s, t) == 0 <==>
        && FirstCovers(t, |s.early|) && |t.late| >= |s.late| && |t.tail| >= |s.tail|
        && (t.gate ==> s.retry == []) && (t.lateStarts || s.lateDue == 0) && (t.tailStarts || s.lateRetry == [])
  {
    CutParts(Play(cfg, w, t), t);
    SlotClaims(cfg, w, t);
  }

  /** `n_cut` is documented as 0 when the slot finished inside its budget. Where no
      deadline fires it is 0 exactly when there was nothing to retry early or the slot
      had not arrived by then: with the slot already queued, the early retries are cut. */
  lemma CutWithoutDeadline<P(!new), R>(cfg: Config, w: World<P, R>, t: Timing)
    requires Sane(w) && NoDeadline(Play(cfg, w, t), t)
    ensures
      var s := Play(cfg, w, t);
      && Cut(s, t) == (if t.gate then |s.retry| else 0)
      && (Cut(s, t) == 0 <==> !t.gate || s.retry == [])
  {
    NothingLeft(cfg, w, t);
  }

  lemma NothingLeft<P, R>(cfg: Config, w: World<P, R>, t: Timing)
    requires NoDeadline(Play(cfg, w, t), t)
    ensures
      var s := Play(cfg, w, t);
      s.first.unclaimed == [] && s.lateSplit.unclaimed == [] && s.tailSplit.unclaimed == []
  {
    SlotClaims(cfg, w, t);
  }

  /** The selection when every candidate is equally good: the first of them. */
  function FirstOnes(cands: seq<nat>, k: nat): (r: seq<Refined<nat>>)
    ensures |r| == Min(|cands|, k)
  {
    seq(Min(|cands|, k), i requires 0 <= i < Min(|cands|, k) => TopK.Refined(cands[i], 1))
  }

  /** Such a slot: one candidate, moved by fine sync, that decodes nowhere. */
  function OneCandidate(): World<nat, nat> {
    World([3], (p: nat) => 5, (p: nat) => true, FirstOnes, FirstOnes, (r: Refined<nat>) => [], (r: Refined<nat>) => [])
  }

  function SlotAlreadyThere(): Timing {
    Timing(false, true, false, [], [Main], true, [], true, [], false, true, [], false, [])
  }

  lemma SoleBatch(cands: seq<nat>)
    requires cands == [5]
    ensures Sane(OneCandidate()) && OneCandidate().pass2Early(cands, 1) == [TopK.Refined(5, 1)]
  {
  }

  lemma SoleFailure(batch: seq<Refined<nat>>)
    requires batch == [TopK.Refined(5, 1)]
    ensures First(OneCandidate(), SlotAlreadyThere(), batch).failed == batch
  {
    var w, t := OneCandidate(), SlotAlreadyThere();
    assert [Main][..0] == [] && [Main][..1] == [Main] && Claims(t.toDeadline, 1) == [Main];
    assert WorkSteal.Share(batch, [Main], Main) == batch && WorkSteal.Share(batch, [Main], Worker) == [];
    assert batch[..0] == [];
    assert WorkSteal.Drain(w.decodeEarly, batch).failed == batch;
    assert batch + [] == batch;
  }

  lemma SolePass1(cfg: Config, w: World<nat, nat>, t: Timing)
    requires cfg == Config(1, false, true) && w == OneCandidate() && t == SlotAlreadyThere()
    ensures Pass1(cfg, w, t) == [5] && Coarse(cfg, w, t) == [3] && Moveable(cfg, w, t) == [5]
    ensures EarlyBatch(cfg, w, Pass1(cfg, w, t)) == [TopK.Refined(5, 1)]
    ensures Deferred(w, Pass1(cfg, w, t)) == []
  {
    assert Pass1(cfg, w, t) == [5];
    NobodyDeferred(Pass1(cfg, w, t));
    SoleBatch(Ready(w, Pass1(cfg, w, t)));
  }

  lemma SoleRetries(cfg: Config, w: World<nat, nat>, t: Timing)
    requires cfg == Config(1, false, true) && w == OneCandidate() && t == SlotAlreadyThere()
    ensures RetryOf(First(w, t, [TopK.Refined(5, 1)]), [5], [3]) == [3]
  {
    SoleFailure([TopK.Refined(5, 1)]);
    assert Positions([TopK.Refined(5, 1)]) == [5];
    SoleRetry();
  }

  lemma SoleSlot(cfg: Config, w: World<nat, nat>, t: Timing)
    requires cfg == Config(1, false, true) && w == OneCandidate() && t == SlotAlreadyThere()
    ensures
      var s := Play(cfg, w, t);
      |s.early| == 1 && s.retry == [3] && s.late == [] && s.tail == []
  {
    SolePass1(cfg, w, t);
    SoleRetries(cfg, w, t);
    NothingToTry(w.decodeEarly, t.retries);
    NothingToTry(w.decodeLate, t.late);
    NothingRetried(Stage3([], w.decodeLate, t.late), [5], [3]);
  }

  lemma CutWithNoBudgetToBlame(cfg: Config, w: World<nat, nat>, t: Timing)
    requires cfg == Config(1, false, true) && w == OneCandidate() && t == SlotAlreadyThere()
    ensures Sane(w) && NoDeadline(Play(cfg, w, t), t) && Cut(Play(cfg, w, t), t) == 1
  {
    SoleBatch([5]);
    SoleSlot(cfg, w, t);
    CutWithoutDeadline(cfg, w, t);
  }

  lemma NobodyDeferred(pass1: seq<nat>)
    requires pass1 == [5]
    ensures Deferred(OneCandidate(), pass1) == [] && Ready(OneCandidate(), pass1) == [5]
  {
    assert pass1[..0] == [];
  }

  lemma SoleRetry()
    ensures CoarseRetry([5], [5], [3]) == [3]
  {
    assert [5][..0] == [];
    assert PositionOf([5], 5) == Some(0);
  }
}

/** Choosing the `k` best-synchronised candidates: `refine_candidates_with`
    (mfsk-core/src/ft8/decode_block/process_candidates.rs), a bounded min-heap, and
    `pass2_split` (embedded-poc/embedded-shared/src/dual_core.rs), which runs it on
    two halves and merges. */
module TopK {

  import opened Common

  /** A candidate and the sync quality pass 2 gave it. */
  datatype Refined<T> = Refined(cand: T, q: nat)

  /** A heap entry; `idx` is the candidate's place in the input. */
  datatype Slot<T> = Slot(q: nat, idx: nat, cand: T)

  // ---- Sorting ------------------------------------------------------------------------

  predicate Descending<T>(s: seq<Refined<T>>) {
    forall i, j :: 0 <= i < j < |s| ==> s[i].q >= s[j].q
  }

  /** `x` after every entry of at least its quality. */
  function Insert<T>(s: seq<Refined<T>>, x: Refined<T>): (r: seq<Refined<T>>)
    ensures multiset(r) == multiset(s) + multiset{x}
  {
    if s == [] || s[|s| - 1].q >= x.q then s + [x]
    else
      var r := Insert(s[..|s| - 1], x) + [s[|s| - 1]];
      assert s == s[..|s| - 1] + [s[|s| - 1]];
      r
  }

  lemma {:induction false} InsertDescends<T>(s: seq<Refined<T>>, x: Refined<T>)
    requires Descending(s)
    ensures Descending(Insert(s, x))
  {
    if s != [] && s[|s| - 1].q < x.q {
      var init, last := s[..|s| - 1], s[|s| - 1];
      InsertDescends(init, x);
      var r := Insert(init, x);
      forall i | 0 <= i < |r| ensures r[i].q >= last.q {
        assert r[i] in multiset(r);
        assert r[i] in multiset(init) || r[i] == x;
      }
    }
  }

  /** Rust's stable sort by descending quality. */
  function Sorted<T>(s: seq<Refined<T>>): (r: seq<Refined<T>>)
    ensures multiset(r) == multiset(s)
  {
    if s == [] then []
    else
      assert s == s[..|s| - 1] + [s[|s| - 1]];
      Insert(Sorted(s[..|s| - 1]), s[|s| - 1])
  }

  lemma {:induction false} SortedDescends<T>(s: seq<Refined<T>>)
    ensures Descending(Sorted(s))
  {
    if s != [] {
      SortedDescends(s[..|s| - 1]);
      InsertDescends(Sorted(s[..|s| - 1]), s[|s| - 1]);
    }
  }

  lemma SortedLength<T>(s: seq<Refined<T>>)
    ensures |Sorted(s)| == |s|
  {
    assert |multiset(Sorted(s))| == |multiset(s)|;
  }

  // ---- What a best-k selection is -------------------------------------------------------

  /** No entry of `kept` is worse than one of `dropped`. */
  ghost predicate Dominates<T>(kept: multiset<Refined<T>>, dropped: multiset<Refined<T>>) {
    forall x: Refined<T>, y: Refined<T> :: x in kept && y in dropped ==> x.q >= y.q
  }

  /** `out` is a best-`k` selection of `all`, in descending order. */
  ghost predicate IsTop<T>(out: seq<Refined<T>>, all: seq<Refined<T>>, k: nat) {
    && Descending(out)
    && |out| == Min(|all|, k)
    && multiset(out) <= multiset(all)
    && Dominates(multiset(out), multiset(all) - multiset(out))
  }

  lemma SubsetSize<T>(a: multiset<T>, b: multiset<T>)
    requires a <= b
    ensures |a| <= |b|
    ensures |a| == |b| ==> a == b
  {
    assert b == a + (b - a);
    if |a| == |b| {
      assert |b - a| == 0;
    }
  }

  /** In a descending list nothing from position `i` on is better than entry `i`,
      and nothing before it is worse. */
  lemma SplitAt<T>(s: seq<Refined<T>>, i: nat)
    requires Descending(s) && i < |s|
    ensures multiset(s[..i]) + multiset(s[i..]) == multiset(s)
    ensures forall x: Refined<T> :: x in multiset(s[i..]) ==> x.q <= s[i].q
    ensures forall x: Refined<T> :: x in multiset(s[..i]) ==> x.q >= s[i].q
  {
    assert s == s[..i] + s[i..];
    forall x: Refined<T> | x in multiset(s[i..]) ensures x.q <= s[i].q {
      assert x in s[i..];
      var j :| 0 <= j < |s[i..]| && s[i..][j] == x;
      assert s[i + j] == x;
    }
    forall x: Refined<T> | x in multiset(s[..i]) ensures x.q >= s[i].q {
      assert x in s[..i];
    }
  }

  /** So a block of better entries fits before it. */
  lemma FewAbove<T>(s: seq<Refined<T>>, block: multiset<Refined<T>>, i: nat)
    requires Descending(s) && block <= multiset(s) && i < |s|
    requires forall x: Refined<T> :: x in block ==> x.q > s[i].q
    ensures |block| <= i
  {
    SplitAt(s, i);
    forall x: Refined<T> | x in block ensures block[x] <= multiset(s[..i])[x] {
      assert x !in multiset(s[i..]);
    }
    SubsetSize(block, multiset(s[..i]));
  }

  /** An entry better than one that was kept was kept itself. */
  lemma BetterIsKept<T>(out: seq<Refined<T>>, all: seq<Refined<T>>, k: nat, i: nat, x: Refined<T>)
    requires IsTop(out, all, k) && i < |out| && x.q > out[i].q
    ensures multiset(all)[x] <= multiset(out)[x]
  {
    assert out[i] in multiset(out);
    assert x !in multiset(all) - multiset(out);
  }

  /** The qualities of a best-k selection are forced, position by position. */
  lemma KeysAreForced<T>(a: seq<Refined<T>>, b: seq<Refined<T>>, all: seq<Refined<T>>, k: nat, i: nat)
    requires IsTop(a, all, k) && IsTop(b, all, k) && i < |a|
    ensures |a| == |b| && a[i].q >= b[i].q
  {
    var head := b[..i + 1];
    assert b == head + b[i + 1..];
    forall x: Refined<T> | x in multiset(head) ensures x.q >= b[i].q && multiset(head)[x] <= multiset(all)[x] {
      assert x in head;
    }
    if a[i].q < b[i].q {
      forall x: Refined<T> | x in multiset(head) ensures multiset(head)[x] <= multiset(a)[x] {
        BetterIsKept(a, all, k, i, x);
      }
      FewAbove(a, multiset(head), i);
    }
  }

  lemma SameKeys<T>(a: seq<Refined<T>>, b: seq<Refined<T>>, all: seq<Refined<T>>, k: nat)
    requires IsTop(a, all, k) && IsTop(b, all, k)
    ensures |a| == |b| && forall i :: 0 <= i < |a| ==> a[i].q == b[i].q
  {
    forall i | 0 <= i < |a| ensures a[i].q == b[i].q {
      KeysAreForced(a, b, all, k, i);
      KeysAreForced(b, a, all, k, i);
    }
  }

  /** The reference: sort everything, keep the first `k`. */
  function Best<T>(all: seq<Refined<T>>, k: nat): (r: seq<Refined<T>>)
    ensures |r| == Min(|all|, k)
  {
    SortedLength(all);
    Sorted(all)[..Min(|all|, k)]
  }

  lemma PrefixDominates<T>(s: seq<Refined<T>>, n: nat)
    requires Descending(s) && n <= |s|
    ensures multiset(s) - multiset(s[..n]) == multiset(s[n..])
    ensures Dominates(multiset(s[..n]), multiset(s[n..]))
  {
    assert s == s[..n] + s[n..];
    if n < |s| {
      SplitAt(s, n);
    }
  }

  lemma PrefixIsTop<T>(s: seq<Refined<T>>, all: seq<Refined<T>>, k: nat)
    requires Descending(s) && multiset(s) == multiset(all)
    ensures |s| == |all| && IsTop(s[..Min(|all|, k)], all, k)
  {
    assert |multiset(s)| == |multiset(all)|;
    var n := Min(|all|, k);
    PrefixDominates(s, n);
    PrefixWithin(s, n);
  }

  lemma PrefixWithin<T>(s: seq<T>, n: nat)
    requires n <= |s|
    ensures multiset(s[..n]) <= multiset(s)
  {
    assert s == s[..n] + s[n..];
  }

  lemma BestIsTop<T>(all: seq<Refined<T>>, k: nat)
    ensures IsTop(Best(all, k), all, k)
  {
    SortedDescends(all);
    PrefixIsTop(Sorted(all), all, k);
  }

  lemma AllAbove<T>(out: seq<Refined<T>>, best: seq<Refined<T>>)
    requires |out| == |best| > 0 && Descending(best)
    requires forall i :: 0 <= i < |out| ==> out[i].q == best[i].q
    ensures forall x: Refined<T> :: x in multiset(out) ==> x.q >= best[|best| - 1].q
  {
    forall x: Refined<T> | x in multiset(out) ensures x.q >= best[|best| - 1].q {
      assert x in out;
      var i :| 0 <= i < |out| && out[i] == x;
      assert x.q == best[i].q;
    }
  }

  /** Everything kept is at least as good as the k-th best. */
  lemma KeptAbove<T>(out: seq<Refined<T>>, all: seq<Refined<T>>, k: nat)
    requires IsTop(out, all, k) && 0 < k <= |all|
    ensures |Best(all, k)| == k
    ensures forall x: Refined<T> :: x in multiset(out) ==> x.q >= Best(all, k)[k - 1].q
  {
    BestIsTop(all, k);
    SameKeys(out, Best(all, k), all, k);
    AllAbove(out, Best(all, k));
  }

  lemma AvoidsTail<T>(out: multiset<Refined<T>>, s: seq<Refined<T>>, n: nat)
    requires out <= multiset(s) && n <= |s| && |out| == n
    requires forall x: Refined<T> :: x in out ==> x !in multiset(s[n..])
    ensures out == multiset(s[..n])
  {
    assert s == s[..n] + s[n..];
    assert out <= multiset(s[..n]);
    SubsetSize(out, multiset(s[..n]));
  }

  /** With no tie across the cut, the selection itself is forced, not only its
      qualities. */
  lemma NoTieNoChoice<T>(out: seq<Refined<T>>, all: seq<Refined<T>>, k: nat)
    requires IsTop(out, all, k)
    requires 0 < k < |all| ==> |Sorted(all)| == |all| && Sorted(all)[k - 1].q > Sorted(all)[k].q
    ensures multiset(out) == multiset(Best(all, k))
  {
    var s := Sorted(all);
    SortedLength(all);
    if k == 0 {
      assert out == Best(all, k);
    } else if k < |all| {
      KeptAbove(out, all, k);
      SortedDescends(all);
      SplitAt(s, k);
      AvoidsTail(multiset(out), s, k);
    } else {
      assert s[|s|..] == [];
      AvoidsTail(multiset(out), s, |s|);
    }
  }

  // ---- Two halves -----------------------------------------------------------------------

  /** If `k` entries are at least as good as `y`, so are the first `k` of the list. */
  lemma FirstAbove<T>(s: seq<Refined<T>>, block: multiset<Refined<T>>, y: Refined<T>, k: nat)
    requires Descending(s) && block <= multiset(s) && |block| == k <= |s|
    requires forall x: Refined<T> :: x in block ==> x.q >= y.q
    ensures forall x: Refined<T> :: x in multiset(s[..k]) ==> x.q >= y.q
  {
    forall x: Refined<T> | x in multiset(s[..k]) ensures x.q >= y.q {
      assert x in s[..k];
      var i :| 0 <= i < k && s[..k][i] == x;
      if s[i].q < y.q {
        FewAbove(s, block, i);
      }
    }
  }

  /** What a half dropped is no better than anything the merge keeps. */
  lemma HalfDroppedBelow<T>(s: seq<Refined<T>>, a: seq<Refined<T>>, half: seq<Refined<T>>, k: nat, y: Refined<T>)
    requires IsTop(a, half, k) && Descending(s) && multiset(a) <= multiset(s)
    requires y in multiset(half) - multiset(a)
    ensures k <= |s| && forall x: Refined<T> :: x in multiset(s[..k]) ==> x.q >= y.q
  {
    SubsetSize(multiset(a), multiset(half));
    SubsetSize(multiset(a), multiset(s));
    FirstAbove(s, multiset(a), y, k);
  }

  lemma MergeDominates<T>(s: seq<Refined<T>>, a: seq<Refined<T>>, b: seq<Refined<T>>,
                          head: seq<Refined<T>>, tail: seq<Refined<T>>, k: nat, y: Refined<T>)
    requires IsTop(a, head, k) && IsTop(b, tail, k)
    requires Descending(s) && multiset(s) == multiset(a) + multiset(b)
    requires y in (multiset(head) + multiset(tail)) - multiset(s[..Min(|s|, k)])
    ensures forall x: Refined<T> :: x in multiset(s[..Min(|s|, k)]) ==> x.q >= y.q
  {
    var n := Min(|s|, k);
    MergeDropped(multiset(a), multiset(b), multiset(head), multiset(tail), multiset(s[..n]), y);
    if y in multiset(head) - multiset(a) {
      HalfDroppedBelow(s, a, head, k, y);
    } else if y in multiset(tail) - multiset(b) {
      HalfDroppedBelow(s, b, tail, k, y);
    } else {
      PrefixDominates(s, n);
    }
  }

  lemma PrefixDescends<T>(s: seq<Refined<T>>, n: nat)
    requires Descending(s) && n <= |s|
    ensures Descending(s[..n])
  {
  }

  /** Best `k` of each half, concatenated, sorted and cut at `k`: best `k` of all. */
  lemma MergeIsTop<T>(a: seq<Refined<T>>, b: seq<Refined<T>>, head: seq<Refined<T>>, tail: seq<Refined<T>>, k: nat)
    requires IsTop(a, head, k) && IsTop(b, tail, k)
    ensures IsTop(Best(a + b, k), head + tail, k)
  {
    var s := Sorted(a + b);
    SortedLength(a + b);
    SortedDescends(a + b);
    MultisetConcat(a, b);
    MultisetConcat(head, tail);
    PrefixWithin(s, Min(|s|, k));
    PrefixDescends(s, Min(|s|, k));
    MergeLength(|a|, |b|, |head|, |tail|, k);
    forall y: Refined<T> | y in (multiset(head) + multiset(tail)) - multiset(s[..Min(|s|, k)])
      ensures forall x: Refined<T> :: x in multiset(s[..Min(|s|, k)]) ==> x.q >= y.q
    {
      MergeDominates(s, a, b, head, tail, k, y);
    }
  }

  lemma MergeLength(a: nat, b: nat, head: nat, tail: nat, k: nat)
    requires a == Min(head, k) && b == Min(tail, k)
    ensures Min(a + b, k) == Min(head + tail, k)
  {
  }

  lemma MergeDropped<T>(a: multiset<T>, b: multiset<T>, head: multiset<T>, tail: multiset<T>, out: multiset<T>, y: T)
    requires y in (head + tail) - out
    ensures y in head - a || y in tail - b || y in (a + b) - out
  {
  }

  // ---- The heap ---------------------------------------------------------------------------

  predicate Below<T>(x: Slot<T>, y: Slot<T>) {
    x.q < y.q || (x.q == y.q && x.idx < y.idx)
  }

  /** The top of the min-heap. */
  function MinIndex<T>(heap: seq<Slot<T>>): (m: nat)
    requires heap != []
    ensures m < |heap| && forall i :: 0 <= i < |heap| ==> heap[m].q <= heap[i].q
  {
    if |heap| == 1 then 0
    else
      var m := MinIndex(heap[..|heap| - 1]);
      if Below(heap[|heap| - 1], heap[m]) then |heap| - 1 else m
  }

  /** One candidate offered: pushed while there is room, otherwise in place of the
      top if it is strictly better. */
  function Offer<T>(heap: seq<Slot<T>>, x: Slot<T>, k: nat): seq<Slot<T>> {
    if |heap| < k then heap + [x]
    else if heap != [] && x.q > heap[MinIndex(heap)].q then heap[MinIndex(heap) := x]
    else heap
  }

  /** The heap after the first `n` candidates. */
  function HeapAfter<T>(cands: seq<T>, quality: T -> nat, k: nat, n: nat): seq<Slot<T>>
    requires n <= |cands|
  {
    if n == 0 then []
    else Offer(HeapAfter(cands, quality, k, n - 1), Slot(quality(cands[n - 1]), n - 1, cands[n - 1]), k)
  }

  function Contents<T>(heap: seq<Slot<T>>): seq<Refined<T>> {
    seq(|heap|, i requires 0 <= i < |heap| => Refined(heap[i].cand, heap[i].q))
  }

  /** Every candidate with its quality. */
  function Scored<T>(cands: seq<T>, quality: T -> nat): seq<Refined<T>> {
    seq(|cands|, i requires 0 <= i < |cands| => Refined(cands[i], quality(cands[i])))
  }

  /** The order a binary heap is drained in is its own business. */
  ghost predicate Permutes<T(!new)>(order: seq<Refined<T>> -> seq<Refined<T>>) {
    forall s :: multiset(order(s)) == multiset(s)
  }

  /** `refine_candidates_with`. */
  function Refine<T>(cands: seq<T>, quality: T -> nat, k: nat, order: seq<Refined<T>> -> seq<Refined<T>>)
    : seq<Refined<T>>
  {
    Sorted(order(Contents(HeapAfter(cands, quality, k, |cands|))))
  }

  method RefineCandidates<T>(cands: seq<T>, quality: T -> nat, k: nat, order: seq<Refined<T>> -> seq<Refined<T>>)
    returns (out: seq<Refined<T>>)
    ensures out == Refine(cands, quality, k, order)
  {
    var heap: seq<Slot<T>> := [];
    for n := 0 to |cands|
      invariant heap == HeapAfter(cands, quality, k, n)
    {
      var slot := Slot(quality(cands[n]), n, cands[n]);
      ghost var was := heap;
      if |heap| < k {
        heap := heap + [slot];
      } else if heap != [] && slot.q > heap[MinIndex(heap)].q {
        heap := heap[MinIndex(heap) := slot];
      }
      assert heap == Offer(was, slot, k);
    }
    out := Sorted(order(Contents(heap)));
  }

  /** The heap holds the best `k` so far, unsorted. */
  ghost predicate Holds<T>(kept: seq<Refined<T>>, all: seq<Refined<T>>, k: nat) {
    && |kept| == Min(|all|, k)
    && multiset(kept) <= multiset(all)
    && Dominates(multiset(kept), multiset(all) - multiset(kept))
  }

  lemma OfferHolds<T>(heap: seq<Slot<T>>, x: Slot<T>, all: seq<Refined<T>>, k: nat)
    requires Holds(Contents(heap), all, k)
    ensures Holds(Contents(Offer(heap, x, k)), all + [Refined(x.cand, x.q)], k)
  {
    var kept, r := Contents(heap), Refined(x.cand, x.q);
    if |heap| < k {
      assert Contents(heap + [x]) == kept + [r];
      PushHolds(kept, r, all, k);
    } else if heap != [] && x.q > heap[MinIndex(heap)].q {
      var m := MinIndex(heap);
      assert Contents(heap[m := x]) == kept[m := r];
      MultisetSnoc(all, r);
      ReplaceDominates(kept, multiset(all), r, m);
    } else {
      MultisetSnoc(all, r);
      KeepDominates(kept, multiset(all), r);
    }
  }

  lemma PushHolds<T>(kept: seq<Refined<T>>, r: Refined<T>, all: seq<Refined<T>>, k: nat)
    requires Holds(kept, all, k) && |kept| < k
    ensures Holds(kept + [r], all + [r], k)
  {
    MultisetSnoc(all, r);
    MultisetSnoc(kept, r);
    SubsetSize(multiset(kept), multiset(all));
  }

  lemma SwapOut<T>(kept: multiset<T>, all: multiset<T>, r: T, e: T)
    requires kept <= all && e in kept
    ensures kept - multiset{e} + multiset{r} <= all + multiset{r}
    ensures (all + multiset{r}) - (kept - multiset{e} + multiset{r}) == (all - kept) + multiset{e}
  {
  }

  lemma ReplaceDominates<T>(kept: seq<Refined<T>>, all: multiset<Refined<T>>, r: Refined<T>, m: nat)
    requires m < |kept| && multiset(kept) <= all && Dominates(multiset(kept), all - multiset(kept))
    requires forall i :: 0 <= i < |kept| ==> kept[m].q <= kept[i].q
    requires r.q > kept[m].q
    ensures multiset(kept[m := r]) <= all + multiset{r}
    ensures Dominates(multiset(kept[m := r]), (all + multiset{r}) - multiset(kept[m := r]))
  {
    var e, now := kept[m], multiset(kept[m := r]);
    assert now == multiset(kept) - multiset{e} + multiset{r};
    SwapOut(multiset(kept), all, r, e);
    forall x: Refined<T> | x in now ensures x.q >= e.q && (x == r || x in multiset(kept)) {
      if x != r {
        assert x in kept;
      }
    }
    forall x: Refined<T>, y: Refined<T> | x in now && y in (all - multiset(kept)) + multiset{e} ensures x.q >= y.q {
      if y != e {
        assert e in multiset(kept) && y in all - multiset(kept);
      }
    }
  }

  lemma KeepDominates<T>(kept: seq<Refined<T>>, all: multiset<Refined<T>>, r: Refined<T>)
    requires multiset(kept) <= all && Dominates(multiset(kept), all - multiset(kept))
    requires forall i :: 0 <= i < |kept| ==> kept[i].q >= r.q
    ensures Dominates(multiset(kept), (all + multiset{r}) - multiset(kept))
  {
    assert (all + multiset{r}) - multiset(kept) == (all - multiset(kept)) + multiset{r};
    forall x: Refined<T> | x in multiset(kept) ensures x.q >= r.q {
      assert x in kept;
    }
  }

  lemma ScoredSnoc<T>(cands: seq<T>, quality: T -> nat, n: nat)
    requires n < |cands|
    ensures Scored(cands[..n + 1], quality) == Scored(cands[..n], quality) + [Refined(cands[n], quality(cands[n]))]
  {
  }

  lemma {:induction false} HeapHolds<T>(cands: seq<T>, quality: T -> nat, k: nat, n: nat)
    requires n <= |cands|
    ensures Holds(Contents(HeapAfter(cands, quality, k, n)), Scored(cands[..n], quality), k)
  {
    if n > 0 {
      HeapHolds(cands, quality, k, n - 1);
      var x := Slot(quality(cands[n - 1]), n - 1, cands[n - 1]);
      OfferHolds(HeapAfter(cands, quality, k, n - 1), x, Scored(cands[..n - 1], quality), k);
      ScoredSnoc(cands, quality, n - 1);
    }
  }

  /** The bounded heap selects a best `k`, whatever order it is drained in. */
  lemma RefineIsTop<T(!new)>(cands: seq<T>, quality: T -> nat, k: nat, order: seq<Refined<T>> -> seq<Refined<T>>)
    requires Permutes(order)
    ensures IsTop(Refine(cands, quality, k, order), Scored(cands, quality), k)
  {
    HeapHolds(cands, quality, k, |cands|);
    assert cands[..|cands|] == cands;
    var kept := Contents(HeapAfter(cands, quality, k, |cands|));
    assert multiset(order(kept)) == multiset(kept);
    assert |multiset(order(kept))| == |multiset(kept)|;
    SortedLength(order(kept));
    SortedDescends(order(kept));
  }

  // ---- pass2_split --------------------------------------------------------------------------

  /** The two cores drain their own heaps. */
  function Split<T>(cands: seq<T>, quality: T -> nat, k: nat,
                    main: seq<Refined<T>> -> seq<Refined<T>>, worker: seq<Refined<T>> -> seq<Refined<T>>)
    : seq<Refined<T>>
  {
    var mid := |cands| / 2;
    Best(Refine(cands[..mid], quality, k, main) + Refine(cands[mid..], quality, k, worker), k)
  }

  method Pass2Split<T>(cands: seq<T>, quality: T -> nat, k: nat,
                       main: seq<Refined<T>> -> seq<Refined<T>>, worker: seq<Refined<T>> -> seq<Refined<T>>)
    returns (out: seq<Refined<T>>)
    ensures out == Split(cands, quality, k, main, worker)
  {
    var mid := |cands| / 2;
    var local := RefineCandidates(cands[..mid], quality, k, main);
    var theirs := RefineCandidates(cands[mid..], quality, k, worker);
    local := local + theirs;
    SortedLength(local);
    local := Sorted(local);
    out := if |local| > k then local[..k] else local;
  }

  /** The split selects a best `k` of the whole list: min(len, k) candidates with
      exactly the qualities, in order, that one core would have got. */
  lemma SplitMatchesWhole<T(!new)>(cands: seq<T>, quality: T -> nat, k: nat,
                                   main: seq<Refined<T>> -> seq<Refined<T>>, worker: seq<Refined<T>> -> seq<Refined<T>>,
                                   alone: seq<Refined<T>> -> seq<Refined<T>>)
    requires Permutes(main) && Permutes(worker) && Permutes(alone)
    ensures
      var split, whole := Split(cands, quality, k, main, worker), Refine(cands, quality, k, alone);
      && IsTop(split, Scored(cands, quality), k)
      && |split| == |whole| == Min(|cands|, k)
      && (forall i :: 0 <= i < |split| ==> split[i].q == whole[i].q)
  {
    var mid := |cands| / 2;
    var head, tail := Scored(cands[..mid], quality), Scored(cands[mid..], quality);
    assert Scored(cands, quality) == head + tail;
    RefineIsTop(cands[..mid], quality, k, main);
    RefineIsTop(cands[mid..], quality, k, worker);
    RefineIsTop(cands, quality, k, alone);
    MergeIsTop(Refine(cands[..mid], quality, k, main), Refine(cands[mid..], quality, k, worker), head, tail, k);
    SameKeys(Split(cands, quality, k, main, worker), Refine(cands, quality, k, alone), Scored(cands, quality), k);
  }

  /** With no tie across the cut they are the same candidates. */
  lemma SplitSameCandidates<T(!new)>(cands: seq<T>, quality: T -> nat, k: nat,
                                     main: seq<Refined<T>> -> seq<Refined<T>>, worker: seq<Refined<T>> -> seq<Refined<T>>,
                                     alone: seq<Refined<T>> -> seq<Refined<T>>)
    requires Permutes(main) && Permutes(worker) && Permutes(alone)
    requires
      var s := Sorted(Scored(cands, quality));
      0 < k < |cands| ==> |s| == |cands| && s[k - 1].q > s[k].q
    ensures multiset(Split(cands, quality, k, main, worker)) == multiset(Refine(cands, quality, k, alone))
  {
    SplitMatchesWhole(cands, quality, k, main, worker, alone);
    RefineIsTop(cands, quality, k, alone);
    NoTieNoChoice(Split(cands, quality, k, main, worker), Scored(cands, quality), k);
    NoTieNoChoice(Refine(cands, quality, k, alone), Scored(cands, quality), k);
  }

  lemma SortedPair<T>(s: seq<Refined<T>>, x: Refined<T>, y: Refined<T>)
    requires multiset(s) == multiset{x, y} && x.q > y.q
    ensures Sorted(s) == [x, y]
  {
    SortedLength(s);
    SortedDescends(s);
    var r := Sorted(s);
    assert |multiset(s)| == |s| == 2;
    assert r == [r[0], r[1]];
    assert multiset{r[0], r[1]} == multiset{x, y};
    assert r[0] in multiset{x, y} && x in multiset{r[0], r[1]};
  }

  function Tens(x: nat): nat {
    x / 10
  }

  lemma HeapOfTwo(cands: seq<nat>)
    requires cands == [11, 20]
    ensures Contents(HeapAfter(cands, Tens, 2, |cands|)) == [Refined(11, 1), Refined(20, 2)]
  {
    assert HeapAfter(cands, Tens, 2, 1) == [Slot(1, 0, 11)];
  }

  lemma HeapOfThree(cands: seq<nat>)
    requires cands == [10, 11, 20]
    ensures Contents(HeapAfter(cands, Tens, 2, |cands|)) == [Refined(20, 2), Refined(11, 1)]
  {
    var two := [Slot(1, 0, 10), Slot(1, 1, 11)];
    assert HeapAfter(cands, Tens, 2, 1) == [Slot(1, 0, 10)];
    assert HeapAfter(cands, Tens, 2, 2) == two;
    assert two[..1] == [Slot(1, 0, 10)] && MinIndex(two[..1]) == 0 && MinIndex(two) == 0;
    assert two[0 := Slot(2, 2, 20)] == [Slot(2, 2, 20), Slot(1, 1, 11)];
  }

  lemma RefineTwo(cands: seq<nat>, order: seq<Refined<nat>> -> seq<Refined<nat>>)
    requires Permutes(order) && (cands == [11, 20] || cands == [10, 11, 20])
    ensures Refine(cands, Tens, 2, order) == [Refined(20, 2), Refined(11, 1)]
  {
    if cands == [11, 20] {
      HeapOfTwo(cands);
    } else {
      HeapOfThree(cands);
    }
    var kept := Contents(HeapAfter(cands, Tens, 2, |cands|));
    assert multiset(order(kept)) == multiset(kept) == multiset{Refined(20, 2), Refined(11, 1)};
    SortedPair(order(kept), Refined(20, 2), Refined(11, 1));
  }

  lemma RefineOne(cands: seq<nat>, order: seq<Refined<nat>> -> seq<Refined<nat>>)
    requires Permutes(order) && cands == [10]
    ensures Refine(cands, Tens, 2, order) == [Refined(10, 1)]
  {
    assert HeapAfter(cands, Tens, 2, 1) == [Slot(1, 0, 10)];
    var kept := Contents(HeapAfter(cands, Tens, 2, 1));
    assert kept == [Refined(10, 1)];
    var r := Sorted(order(kept));
    assert multiset(r) == multiset{Refined(10, 1)};
    assert |multiset(r)| == |r| == 1;
    assert r == [r[0]] && r[0] in multiset(r);
  }

  lemma SortedSnoc<T>(t: seq<Refined<T>>, x: Refined<T>, r: seq<Refined<T>>)
    requires Sorted(t) == r
    ensures Sorted(t + [x]) == Insert(r, x)
  {
    assert (t + [x])[..|t|] == t;
  }

  lemma InsertLow<T>(s: seq<Refined<T>>, x: Refined<T>)
    requires s == [] || s[|s| - 1].q >= x.q
    ensures Insert(s, x) == s + [x]
  {
  }

  lemma InsertHigh<T>(y: Refined<T>, x: Refined<T>)
    requires x.q > y.q
    ensures Insert([y], x) == [x, y]
  {
    assert [y][..0] == [];
    InsertLow([], x);
  }

  lemma SortedThree<T>(s: seq<Refined<T>>, a: Refined<T>, c: Refined<T>, b: Refined<T>)
    requires s == (([] + [a]) + [c]) + [b] && c.q > a.q >= b.q
    ensures Sorted(s) == [c, a] + [b]
  {
    InsertLow([], a);
    InsertHigh(a, c);
    InsertLow([c, a], b);
    SortedSnoc([], a, []);
    SortedSnoc([] + [a], c, [a]);
    SortedSnoc(([] + [a]) + [c], b, [c, a]);
  }

  lemma BestThree(s: seq<Refined<nat>>, a: Refined<nat>, c: Refined<nat>, b: Refined<nat>)
    requires s == [a] + [c, b] && c.q > a.q >= b.q
    ensures Best(s, 2) == [c, a]
  {
    assert s == (([] + [a]) + [c]) + [b];
    SortedThree(s, a, c, b);
    assert ([c, a] + [b])[..2] == [c, a];
  }

  lemma SplitIs<T>(cands: seq<T>, quality: T -> nat, k: nat, order: seq<Refined<T>> -> seq<Refined<T>>,
                   head: seq<Refined<T>>, tail: seq<Refined<T>>)
    requires Refine(cands[..|cands| / 2], quality, k, order) == head
    requires Refine(cands[|cands| / 2..], quality, k, order) == tail
    ensures Split(cands, quality, k, order, order) == Best(head + tail, k)
  {
  }

  /** With one they need not be: two candidates of quality 1 and one of quality 2,
      two places. One core evicts the first, the split keeps it. */
  lemma SplitMayDiffer(cands: seq<nat>, order: seq<Refined<nat>> -> seq<Refined<nat>>)
    requires Permutes(order) && cands == [10, 11, 20]
    ensures Refine(cands, Tens, 2, order) == [Refined(20, 2), Refined(11, 1)]
    ensures Split(cands, Tens, 2, order, order) == [Refined(20, 2), Refined(10, 1)]
  {
    assert cands[..1] == [10] && cands[1..] == [11, 20];
    RefineOne(cands[..1], order);
    RefineTwo(cands[1..], order);
    RefineTwo(cands, order);
    SplitIs(cands, Tens, 2, order, [Refined(10, 1)], [Refined(20, 2), Refined(11, 1)]);
    BestThree([Refined(10, 1)] + [Refined(20, 2), Refined(11, 1)], Refined(10, 1), Refined(20, 2), Refined(11, 1));
  }
}

/** Which candidates survive a tie at the cut. One core's heap keeps certain ties
    (`HeapTies`), `pass2_split` (embedded-poc/embedded-shared/src/dual_core.rs) cuts a
    stable sort of two drained heaps; here is exactly when both keep the same
    candidates. */
module TieBreaks {

  import opened Common
  import opened TopK
  import opened HeapTies

  // ---- The stable sort keeps ties in their order -----------------------------------------------

  lemma {:induction false} InsertKeepsTies<T>(s: seq<Refined<T>>, x: Refined<T>, t: nat)
    ensures Pick(Insert(s, x), t, Tied) == Pick(s + [x], t, Tied)
  {
    if s != [] && s[|s| - 1].q < x.q {
      var init, last := s[..|s| - 1], s[|s| - 1];
      InsertKeepsTies(init, x, t);
      PickSnoc(Insert(init, x), last, t, Tied);
      PickSnoc(init, x, t, Tied);
      PickSnoc(s, x, t, Tied);
    }
  }

  lemma {:induction false} SortedKeepsTies<T>(s: seq<Refined<T>>, t: nat)
    ensures Pick(Sorted(s), t, Tied) == Pick(s, t, Tied)
  {
    if s != [] {
      var init, last := s[..|s| - 1], s[|s| - 1];
      SortedKeepsTies(init, t);
      InsertKeepsTies(Sorted(init), last, t);
      PickSnoc(Sorted(init), last, t, Tied);
    }
  }

  // ---- The cut ------------------------------------------------------------------------------------

  /** The quality of the last place. */
  function KthBest<T>(all: seq<Refined<T>>, k: nat): nat
    requires 0 < k <= |all|
  {
    SortedLength(all);
    Sorted(all)[k - 1].q
  }

  lemma FewExceed<T>(s: seq<Refined<T>>, i: nat)
    requires Descending(s) && i < |s|
    ensures |Pick(s, s[i].q, Over)| <= i
  {
    var t := s[i].q;
    assert s == s[..i] + s[i..];
    PickConcat(s[..i], s[i..], t, Over);
    PickNone(s[i..], t, Over);
  }

  lemma ManyReach<T>(s: seq<Refined<T>>, i: nat)
    requires Descending(s) && i < |s|
    ensures |Pick(s, s[i].q, Reaching)| > i
  {
    var t := s[i].q;
    assert s == s[..i + 1] + s[i + 1..];
    PickConcat(s[..i + 1], s[i + 1..], t, Reaching);
    PickAll(s[..i + 1], t, Reaching);
  }

  lemma CountsAt<T>(s: seq<Refined<T>>, all: seq<Refined<T>>, i: nat)
    requires Descending(s) && multiset(s) == multiset(all) && i < |s|
    ensures |Pick(all, s[i].q, Over)| <= i < |Pick(all, s[i].q, Reaching)|
  {
    FewExceed(s, i);
    ManyReach(s, i);
    PickSameCount(s, all, s[i].q, Over);
    PickSameCount(s, all, s[i].q, Reaching);
  }

  /** Fewer than `k` entries exceed it, at least `k` reach it. */
  lemma CutCounts<T>(all: seq<Refined<T>>, k: nat)
    requires 0 < k <= |all|
    ensures |Pick(all, KthBest(all, k), Over)| < k <= |Pick(all, KthBest(all, k), Reaching)|
  {
    SortedLength(all);
    SortedDescends(all);
    CountsAt(Sorted(all), all, k - 1);
  }

  lemma TopAtCut<T>(out: seq<Refined<T>>, all: seq<Refined<T>>, k: nat)
    requires 0 < k <= |all| && IsTop(out, all, k)
    ensures |out| == k && out[k - 1].q == KthBest(all, k)
    ensures forall x: Refined<T> :: x in multiset(out) ==> x.q >= KthBest(all, k)
  {
    BestIsTop(all, k);
    SameKeys(out, Best(all, k), all, k);
    KeptAbove(out, all, k);
  }

  lemma TopWithin<T>(out: seq<Refined<T>>, all: seq<Refined<T>>, k: nat, x: Refined<T>)
    requires IsTop(out, all, k)
    ensures multiset(out)[x] <= multiset(all)[x]
  {
  }

  /** A best-`k` selection holds everything above the last place's quality, nothing
      below it, and ties in the places left. */
  lemma TopParts<T>(out: seq<Refined<T>>, all: seq<Refined<T>>, k: nat, x: Refined<T>)
    requires 0 < k <= |all| && IsTop(out, all, k)
    ensures x.q > KthBest(all, k) ==> multiset(out)[x] == multiset(all)[x]
    ensures x.q < KthBest(all, k) ==> multiset(out)[x] == 0
  {
    TopAtCut(out, all, k);
    if x.q > KthBest(all, k) {
      BetterIsKept(out, all, k, k - 1, x);
      TopWithin(out, all, k, x);
    }
  }

  lemma TopTies<T>(out: seq<Refined<T>>, all: seq<Refined<T>>, k: nat)
    requires 0 < k <= |all| && IsTop(out, all, k)
    ensures
      var t := KthBest(all, k);
      |Pick(all, t, Over)| + |Pick(out, t, Tied)| == k
  {
    var t := KthBest(all, k);
    forall x: Refined<T> ensures multiset(Pick(out, t, Over))[x] == multiset(Pick(all, t, Over))[x] {
      TopParts(out, all, k, x);
      PickMultiplicity(out, t, Over, x);
      PickMultiplicity(all, t, Over, x);
    }
    SameMultiset(multiset(Pick(out, t, Over)), multiset(Pick(all, t, Over)));
    SameLength(Pick(out, t, Over), Pick(all, t, Over));
    forall i | 0 <= i < |out| ensures In(Reaching, out[i].q, t) {
      TopParts(out, all, k, out[i]);
    }
    PickAll(out, t, Reaching);
    PickCounts(out, t);
  }

  /** So two of them differ in their ties or not at all. */
  lemma TiesDecide<T>(a: seq<Refined<T>>, b: seq<Refined<T>>, all: seq<Refined<T>>, k: nat)
    requires 0 < k <= |all| && IsTop(a, all, k) && IsTop(b, all, k)
    ensures
      var t := KthBest(all, k);
      multiset(a) == multiset(b) <==> multiset(Pick(a, t, Tied)) == multiset(Pick(b, t, Tied))
  {
    var t := KthBest(all, k);
    if multiset(a) == multiset(b) {
      PickPermutes(a, b, t, Tied);
    }
    if multiset(Pick(a, t, Tied)) == multiset(Pick(b, t, Tied)) {
      forall x: Refined<T> ensures multiset(a)[x] == multiset(b)[x] {
        TopParts(a, all, k, x);
        TopParts(b, all, k, x);
        PickMultiplicity(a, t, Tied, x);
        PickMultiplicity(b, t, Tied, x);
      }
      SameMultiset(multiset(a), multiset(b));
    }
  }

  /** The ties one core's selection holds, in the order its heap was drained in. */
  lemma RefineTies<T(!new)>(cands: seq<T>, quality: T -> nat, k: nat, order: seq<Refined<T>> -> seq<Refined<T>>, t: nat)
    requires Permutes(order) && |Pick(Scored(cands, quality), t, Over)| <= k
    ensures
      var drained := order(Contents(HeapAfter(cands, quality, k, |cands|)));
      && Pick(Refine(cands, quality, k, order), t, Tied) == Pick(drained, t, Tied)
      && multiset(drained) == multiset(Kept(Scored(cands, quality), k))
      && multiset(Pick(drained, t, Tied)) == multiset(KeptTies(Scored(cands, quality), t, k))
  {
    var drained := order(Contents(HeapAfter(cands, quality, k, |cands|)));
    SortedKeepsTies(drained, t);
    HeapIsKept(cands, quality, k);
    PickPermutes(drained, Kept(Scored(cands, quality), k), t, Tied);
    HeapKeepsTies(Scored(cands, quality), t, k);
  }

  lemma Halves<T>(cands: seq<T>, quality: T -> nat)
    ensures
      var mid := |cands| / 2;
      && Scored(cands[..mid], quality) == Scored(cands, quality)[..mid]
      && Scored(cands[mid..], quality) == Scored(cands, quality)[mid..]
  {
  }

  lemma HalvesCount<T>(all: seq<Refined<T>>, mid: nat, t: nat, part: Part)
    requires mid <= |all|
    ensures Pick(all, t, part) == Pick(all[..mid], t, part) + Pick(all[mid..], t, part)
  {
    assert all == all[..mid] + all[mid..];
    PickConcat(all[..mid], all[mid..], t, part);
  }

  lemma CutTies<T>(joined: seq<Refined<T>>, k: nat, t: nat)
    ensures
      var n := |Pick(Best(joined, k), t, Tied)|;
      && n <= |Pick(joined, t, Tied)|
      && Pick(Best(joined, k), t, Tied) == Pick(joined, t, Tied)[..n]
  {
    var s, out := Sorted(joined), Best(joined, k);
    SortedLength(joined);
    assert s == out + s[|out|..];
    PickConcat(out, s[|out|..], t, Tied);
    SortedKeepsTies(joined, t);
  }

  /** Of the two halves' ties, drained one after the other, the split keeps the first. */
  lemma SplitTies<T(!new)>(cands: seq<T>, quality: T -> nat, k: nat,
                           main: seq<Refined<T>> -> seq<Refined<T>>, worker: seq<Refined<T>> -> seq<Refined<T>>)
    requires Permutes(main) && Permutes(worker) && 0 < k <= |cands|
    ensures
      var all, mid := Scored(cands, quality), |cands| / 2;
      var t := KthBest(all, k);
      var ties := Pick(Refine(cands[..mid], quality, k, main), t, Tied)
                + Pick(Refine(cands[mid..], quality, k, worker), t, Tied);
      && |Pick(all, t, Over)| < k && k - |Pick(all, t, Over)| <= |ties|
      && Pick(Split(cands, quality, k, main, worker), t, Tied) == ties[..k - |Pick(all, t, Over)|]
  {
    var all, mid := Scored(cands, quality), |cands| / 2;
    var t := KthBest(all, k);
    var a, b := Refine(cands[..mid], quality, k, main), Refine(cands[mid..], quality, k, worker);
    SplitMatchesWhole(cands, quality, k, main, worker, main);
    CutCounts(all, k);
    TopTies(Split(cands, quality, k, main, worker), all, k);
    CutTies(a + b, k, t);
    PickConcat(a, b, t, Tied);
  }

  // ---- When the ties agree ---------------------------------------------------------------------------

  /** The entries above `t` come before the ties. */
  predicate HighFirst<T(==)>(s: seq<Refined<T>>, t: nat) {
    Pick(s, t, Reaching) == Pick(s, t, Over) + Pick(s, t, Tied)
  }

  /** With `t` the quality of the last place: no tie crosses the cut; or the head has
      nothing that reaches it; or the head alone overflows the heap and holds all that
      exceed it; or the head has as many ties as there are places for them and the
      tail's ties come last. */
  predicate TiesAgree<T(==)>(head: seq<Refined<T>>, tail: seq<Refined<T>>, t: nat, k: nat) {
    || |Pick(head, t, Reaching)| + |Pick(tail, t, Reaching)| == k
    || Pick(head, t, Reaching) == []
    || (|Pick(head, t, Reaching)| > k && Pick(tail, t, Over) == [])
    || (|Pick(head, t, Tied)| + |Pick(head, t, Over)| + |Pick(tail, t, Over)| == k && HighFirst(tail, t))
  }

  predicate SplitAgrees<T(==)>(all: seq<Refined<T>>, k: nat) {
    || k == 0 || |all| <= k
    || TiesAgree(all[..|all| / 2], all[|all| / 2..], KthBest(all, k), k)
  }

  /** Whatever the drain orders, the first `m` of these ties are `whole`. */
  ghost predicate Fits<T>(head: seq<T>, tail: seq<T>, whole: seq<T>, m: nat) {
    || (|head| == m && multiset(head) == multiset(whole))
    || (|head| + |tail| == m && multiset(head + tail) == multiset(whole))
  }

  lemma FitsAnyDrain<T>(head: seq<T>, tail: seq<T>, whole: seq<T>, m: nat, a: seq<T>, b: seq<T>)
    requires Fits(head, tail, whole, m)
    requires multiset(a) == multiset(head) && multiset(b) == multiset(tail) && m <= |a + b|
    ensures multiset((a + b)[..m]) == multiset(whole)
  {
    SameLength(a, head);
    SameLength(b, tail);
    if |head| == m && multiset(head) == multiset(whole) {
      assert (a + b)[..m] == a;
    } else {
      assert (a + b)[..m] == a + b;
      MultisetMerge(a, head, b, tail);
    }
  }

  lemma FrontOfConcat<T>(a: seq<T>, b: seq<T>, k: nat)
    ensures Front(a + b, k) == if k <= |a| then Front(a, k) else a + Front(b, k - |a|)
  {
  }

  /** The ties among the first `k` of head and tail together. */
  lemma FrontTies<T>(head: seq<Refined<T>>, tail: seq<Refined<T>>, t: nat, k: nat)
    ensures
      var h, all := Pick(head, t, Reaching), Pick(head + tail, t, Reaching);
      Pick(Front(all, k), t, Tied)
      == if k <= |h| then Pick(Front(h, k), t, Tied)
         else Pick(head, t, Tied) + Pick(Front(Pick(tail, t, Reaching), k - |h|), t, Tied)
  {
    var h, r := Pick(head, t, Reaching), Pick(tail, t, Reaching);
    PickConcat(head, tail, t, Reaching);
    FrontOfConcat(h, r, k);
    if k > |h| {
      PickConcat(h, Front(r, k - |h|), t, Tied);
      PickReaching(head, t, Tied);
    }
  }

  /** Room for every tie of both. */
  lemma NoTieCrosses<T>(head: seq<Refined<T>>, tail: seq<Refined<T>>, t: nat, k: nat)
    requires |Pick(head, t, Reaching)| + |Pick(tail, t, Reaching)| <= k
    ensures KeptTies(head + tail, t, k) == KeptTies(head, t, k) + KeptTies(tail, t, k)
  {
    PickConcat(head, tail, t, Reaching);
    PickConcat(head, tail, t, Tied);
    FewTies(head, t, k);
    FewTies(tail, t, k);
    FewTies(head + tail, t, k);
  }

  lemma NothingInHead<T>(head: seq<Refined<T>>, tail: seq<Refined<T>>, t: nat, k: nat)
    requires Pick(head, t, Reaching) == []
    ensures KeptTies(head, t, k) == [] && KeptTies(head + tail, t, k) == KeptTies(tail, t, k)
  {
    PickConcat(head, tail, t, Reaching);
    PickConcat(head, tail, t, Over);
    PickCounts(head, t);
    FewTies(head, t, k);
    assert Pick(head + tail, t, Reaching) == Pick(tail, t, Reaching);
    assert Pick(head + tail, t, Over) == Pick(tail, t, Over);
  }

  lemma HeadOverflows<T>(head: seq<Refined<T>>, tail: seq<Refined<T>>, t: nat, k: nat)
    requires |Pick(head, t, Reaching)| >= k && Pick(tail, t, Over) == []
    ensures KeptTies(head + tail, t, k) == KeptTies(head, t, k)
  {
    PickConcat(head, tail, t, Over);
    FrontTies(head, tail, t, k);
  }

  /** The entries that exceed `t` come first when no tie is among as many entries. */
  lemma HighOnes<T>(s: seq<Refined<T>>, t: nat)
    ensures
      var front := Front(Pick(s, t, Reaching), |Pick(s, t, Over)|);
      HighFirst(s, t) <==> Pick(front, t, Tied) == []
  {
    PickCounts(s, t);
    if HighFirst(s, t) {
      assert Front(Pick(s, t, Reaching), |Pick(s, t, Over)|) == Pick(s, t, Over);
      PickAboveOnly(s, t);
    } else if Pick(Front(Pick(s, t, Reaching), |Pick(s, t, Over)|), t, Tied) == [] {
      HighInFront(s, t);
      assert false;
    }
  }

  lemma HighInFront<T>(s: seq<Refined<T>>, t: nat)
    requires Pick(Front(Pick(s, t, Reaching), |Pick(s, t, Over)|), t, Tied) == []
    ensures HighFirst(s, t)
  {
    var n := |Pick(s, t, Over)|;
    PickCounts(s, t);
    var front, back := Front(Pick(s, t, Reaching), n), Pick(s, t, Reaching)[n..];
    assert Pick(s, t, Reaching) == front + back;
    FrontReaches(s, t, n);
    BackReaches(s, t, n);
    OverThenTied(s, front, back, t);
  }

  lemma OverThenTied<T>(s: seq<Refined<T>>, front: seq<Refined<T>>, back: seq<Refined<T>>, t: nat)
    requires Pick(s, t, Reaching) == front + back && |front| == |Pick(s, t, Over)|
    requires Pick(front, t, Reaching) == front && Pick(back, t, Reaching) == back && Pick(front, t, Tied) == []
    ensures HighFirst(s, t)
  {
    AllOver(front, t);
    PickParts(s, Pick(s, t, Reaching), front, back, t, Over);
    PickParts(s, Pick(s, t, Reaching), front, back, t, Tied);
    NoneLeft(front, Pick(back, t, Over));
    AllTied(back, t);
    NoneLeft(back, Pick(front, t, Tied));
  }

  lemma NoneLeft<T>(a: seq<T>, b: seq<T>)
    ensures |a + b| == |a| ==> b == []
    ensures b == [] ==> a + b == a && b + a == a
  {
  }

  lemma PickParts<T>(s: seq<Refined<T>>, r: seq<Refined<T>>, front: seq<Refined<T>>, back: seq<Refined<T>>, t: nat, part: Part)
    requires r == Pick(s, t, Reaching) == front + back
    ensures Pick(s, t, part) == Pick(front, t, part) + Pick(back, t, part)
  {
    PickReaching(s, t, part);
    PickConcat(front, back, t, part);
  }

  lemma PickAboveOnly<T>(s: seq<Refined<T>>, t: nat)
    ensures Pick(Pick(s, t, Over), t, Tied) == []
  {
    PickIsIn(s, t, Over);
    PickNone(Pick(s, t, Over), t, Tied);
  }

  lemma {:induction false} PickIsIn<T>(s: seq<Refined<T>>, t: nat, part: Part)
    ensures forall i :: 0 <= i < |Pick(s, t, part)| ==> In(part, Pick(s, t, part)[i].q, t)
  {
    if s != [] {
      PickIsIn(s[..|s| - 1], t, part);
    }
  }

  lemma BackReaches<T>(s: seq<Refined<T>>, t: nat, n: nat)
    requires n <= |Pick(s, t, Reaching)|
    ensures Pick(Pick(s, t, Reaching)[n..], t, Reaching) == Pick(s, t, Reaching)[n..]
  {
    PickIsIn(s, t, Reaching);
    PickAll(Pick(s, t, Reaching)[n..], t, Reaching);
  }

  lemma {:induction false} AllOver<T>(s: seq<Refined<T>>, t: nat)
    requires Pick(s, t, Tied) == [] && Pick(s, t, Reaching) == s
    ensures Pick(s, t, Over) == s
  {
    PickReaching(s, t, Over);
    PickIsIn(s, t, Reaching);
    forall i | 0 <= i < |s| ensures In(Over, s[i].q, t) {
      PickMultiplicity(s, t, Tied, s[i]);
      assert s[i] in multiset(s);
    }
    PickAll(s, t, Over);
  }

  lemma {:induction false} AllTied<T>(s: seq<Refined<T>>, t: nat)
    requires Pick(s, t, Over) == [] && Pick(s, t, Reaching) == s
    ensures Pick(s, t, Tied) == s
  {
    PickIsIn(s, t, Reaching);
    forall i | 0 <= i < |s| ensures In(Tied, s[i].q, t) {
      PickMultiplicity(s, t, Over, s[i]);
      assert s[i] in multiset(s);
    }
    PickAll(s, t, Tied);
  }

  /** The head has the needed number of ties and the tail's come last. */
  lemma HeadSuffices<T>(head: seq<Refined<T>>, tail: seq<Refined<T>>, t: nat, k: nat)
    requires |Pick(head, t, Tied)| + |Pick(head, t, Over)| + |Pick(tail, t, Over)| == k && HighFirst(tail, t)
    ensures KeptTies(head, t, k) == KeptTies(head + tail, t, k) == Pick(head, t, Tied)
  {
    PickCounts(head, t);
    FewTies(head, t, k);
    FrontTies(head, tail, t, k);
    HighOnes(tail, t);
    PickConcat(head, tail, t, Over);
    PickReaching(head, t, Tied);
  }

  lemma AgreeingTiesFit<T>(head: seq<Refined<T>>, tail: seq<Refined<T>>, t: nat, k: nat)
    requires |Pick(head + tail, t, Over)| < k <= |Pick(head + tail, t, Reaching)| && TiesAgree(head, tail, t, k)
    ensures
      Fits(KeptTies(head, t, k), KeptTies(tail, t, k), KeptTies(head + tail, t, k), k - |Pick(head + tail, t, Over)|)
  {
    ManyTies(head + tail, t, k);
    PickConcat(head, tail, t, Over);
    if |Pick(head, t, Reaching)| + |Pick(tail, t, Reaching)| == k {
      NoTieCrosses(head, tail, t, k);
    } else if Pick(head, t, Reaching) == [] {
      NothingInHead(head, tail, t, k);
    } else if |Pick(head, t, Reaching)| > k && Pick(tail, t, Over) == [] {
      HeadOverflows(head, tail, t, k);
    } else {
      HeadSuffices(head, tail, t, k);
    }
  }

  // ---- When they do not ---------------------------------------------------------------------------------

  /** No entry twice. */
  ghost predicate Single<T(!new)>(s: multiset<T>) {
    forall x :: s[x] <= 1
  }

  lemma WithinSize<T>(a: multiset<T>, b: multiset<T>)
    requires a <= b
    ensures |a| <= |b|
  {
    assert b == a + (b - a);
  }

  lemma OneMore<T(!new)>(a: seq<T>, b: seq<T>) returns (x: T)
    requires |a| > |b| && Single(multiset(a))
    ensures x in a && x !in b
  {
    if forall y :: y in a ==> y in b {
      forall y ensures multiset(a)[y] <= multiset(b)[y] {
        assert y in a <==> y in multiset(a);
      }
      WithinSize(multiset(a), multiset(b));
      assert false;
    }
    x :| x in a && x !in b;
  }

  lemma KeptTiesWithin<T>(s: seq<Refined<T>>, t: nat, k: nat)
    ensures multiset(KeptTies(s, t, k)) <= multiset(s)
  {
    FrontTiesWithin(s, t, k);
    var ties := Pick(Front(Pick(s, t, Reaching), k), t, Tied);
    var n := |ties| - |KeptTies(s, t, k)|;
    assert |Pick(s, t, Over)| <= k ==> ties == ties[..n] + KeptTies(s, t, k);
  }

  /** The head has enough ties, but a tie in the tail comes before an entry that
      exceeds it: one core lets go of the head's first. */
  lemma FirstTieGoes<T(!new)>(head: seq<Refined<T>>, tail: seq<Refined<T>>, t: nat, k: nat)
    requires Single(multiset(head + tail)) && Pick(head, t, Tied) != []
    requires |Pick(head, t, Tied)| + |Pick(head, t, Over)| + |Pick(tail, t, Over)| == k && !HighFirst(tail, t)
    ensures KeptTies(head, t, k) == Pick(head, t, Tied)
    ensures KeptTies(head, t, k)[0] !in KeptTies(head + tail, t, k)
  {
    var ties, more := Pick(head, t, Tied), Pick(Front(Pick(tail, t, Reaching), |Pick(tail, t, Over)|), t, Tied);
    PickCounts(head, t);
    FewTies(head, t, k);
    FrontTies(head, tail, t, k);
    HighOnes(tail, t);
    PickConcat(head, tail, t, Over);
    PickWithin(head, t, Tied);
    FrontTiesWithin(tail, t, |Pick(tail, t, Over)|);
    MultisetConcat(head, tail);
    FirstIsAlone(ties, more, multiset(head + tail));
  }

  lemma FrontTiesWithin<T>(s: seq<Refined<T>>, t: nat, n: nat)
    ensures multiset(Pick(Front(Pick(s, t, Reaching), n), t, Tied)) <= multiset(s)
  {
    var r := Pick(s, t, Reaching);
    PickWithin(s, t, Reaching);
    PickWithin(Front(r, n), t, Tied);
    assert r == Front(r, n) + r[|Front(r, n)|..];
  }

  lemma FirstIsAlone<T(!new)>(a: seq<T>, b: seq<T>, all: multiset<T>)
    requires Single(all) && multiset(a) + multiset(b) <= all && a != [] && b != []
    ensures a[0] !in Back(a + b, |a|)
  {
    FirstOnce(a, b, all);
    var rest := a[1..] + b;
    assert Back(a + b, |a|) == rest[|b| - 1..];
  }

  lemma FirstOnce<T(!new)>(a: seq<T>, b: seq<T>, all: multiset<T>)
    requires Single(all) && multiset(a) + multiset(b) <= all && a != []
    ensures a[0] !in a[1..] + b
  {
    assert a == [a[0]] + a[1..];
    assert multiset(a) == multiset{a[0]} + multiset(a[1..]);
    assert (multiset(a) + multiset(b))[a[0]] <= all[a[0]] <= 1;
    assert a[0] !in multiset(a[1..]) && a[0] !in multiset(b);
  }

  /** The kept ties of the two halves are then too many together. */
  lemma TooManyTies<T>(head: seq<Refined<T>>, tail: seq<Refined<T>>, t: nat, k: nat)
    requires |Pick(head + tail, t, Over)| < k <= |Pick(head + tail, t, Reaching)| && !TiesAgree(head, tail, t, k)
    ensures
      var m := k - |Pick(head + tail, t, Over)|;
      && |KeptTies(head + tail, t, k)| == m
      && (|Pick(head, t, Reaching)| > k ==> |KeptTies(head, t, k)| > m)
      && (|Pick(head, t, Reaching)| <= k ==>
            && KeptTies(head, t, k) == Pick(head, t, Tied)
            && |KeptTies(head, t, k)| + |KeptTies(tail, t, k)| > m)
  {
    PickConcat(head, tail, t, Over);
    PickConcat(head, tail, t, Reaching);
    ManyTies(head + tail, t, k);
    TiesCount(head, t, k);
    TiesCount(tail, t, k);
    if |Pick(head, t, Reaching)| <= k {
      FewTies(head, t, k);
    }
  }

  /** Some tie is drained by the split that one core lets go. */
  lemma TieThatEscapes<T(!new)>(head: seq<Refined<T>>, tail: seq<Refined<T>>, t: nat, k: nat) returns (x: Refined<T>)
    requires Single(multiset(head + tail))
    requires |Pick(head + tail, t, Over)| < k <= |Pick(head + tail, t, Reaching)| && !TiesAgree(head, tail, t, k)
    ensures x !in KeptTies(head + tail, t, k)
    ensures x in KeptTies(head, t, k)
         || (x in KeptTies(tail, t, k) && |KeptTies(head, t, k)| + |Pick(head + tail, t, Over)| < k)
  {
    var a, b, whole := KeptTies(head, t, k), KeptTies(tail, t, k), KeptTies(head + tail, t, k);
    TooManyTies(head, tail, t, k);
    KeptTiesWithin(head, t, k);
    KeptTiesWithin(tail, t, k);
    assert multiset(a) <= multiset(a + b) <= multiset(head + tail);
    if |a| > |whole| {
      x := OneMore(a, whole);
    } else if |a| == |whole| {
      PickConcat(head, tail, t, Over);
      FirstTieGoes(head, tail, t, k);
      x := a[0];
    } else {
      x := OneMore(a + b, whole);
    }
  }

  /** A drain that brings `x` to the front. */
  ghost function Lead<T>(s: seq<T>, x: T): (r: seq<T>)
    ensures multiset(r) == multiset(s)
    ensures x in s ==> r != [] && r[0] == x
  {
    if x in s then
      var i :| 0 <= i < |s| && s[i] == x;
      assert s == s[..i] + [s[i]] + s[i + 1..];
      [s[i]] + Without(s, i)
    else s
  }

  ghost function Leading<T(!new)>(x: Refined<T>): (order: seq<Refined<T>> -> seq<Refined<T>>)
    ensures Permutes(order)
  {
    (s: seq<Refined<T>>) => Lead(s, x)
  }

  /** A tie brought to the front of the heap's drain is the first tie. */
  lemma LedTies<T(!new)>(cands: seq<T>, quality: T -> nat, k: nat, t: nat, x: Refined<T>)
    requires |Pick(Scored(cands, quality), t, Over)| <= k
    ensures
      var ties := Pick(Refine(cands, quality, k, Leading(x)), t, Tied);
      && |ties| == |KeptTies(Scored(cands, quality), t, k)|
      && (x in KeptTies(Scored(cands, quality), t, k) ==> ties != [] && ties[0] == x)
  {
    var heap := Contents(HeapAfter(cands, quality, k, |cands|));
    RefineTies(cands, quality, k, Leading(x), t);
    SameLength(Pick(Leading(x)(heap), t, Tied), KeptTies(Scored(cands, quality), t, k));
    if x in KeptTies(Scored(cands, quality), t, k) {
      assert x in multiset(Pick(Leading(x)(heap), t, Tied));
      LeadIsFirst(heap, x, t);
    }
  }

  lemma LeadIsFirst<T>(s: seq<Refined<T>>, x: Refined<T>, t: nat)
    requires x in multiset(Pick(Lead(s, x), t, Tied))
    ensures Pick(Lead(s, x), t, Tied) != [] && Pick(Lead(s, x), t, Tied)[0] == x
  {
    var led := Lead(s, x);
    PickMultiplicity(led, t, Tied, x);
    assert x in multiset(s);
    assert led == [x] + led[1..];
    PickConcat([x], led[1..], t, Tied);
    PickAll([x], t, Tied);
  }

  lemma LeadIsKept<T>(a: seq<T>, b: seq<T>, m: nat, x: T)
    requires 0 < m <= |a + b|
    requires (a != [] && a[0] == x) || (|a| < m && b != [] && b[0] == x)
    ensures x in multiset((a + b)[..m])
  {
    if a != [] && a[0] == x {
      assert (a + b)[..m][0] == x;
    } else {
      assert (a + b)[..m][|a|] == x;
    }
  }

  // ---- The two selections -----------------------------------------------------------------------------------

  /** The split keeps one core's candidates whenever `SplitAgrees`. */
  lemma AgreeingSplit<T(!new)>(cands: seq<T>, quality: T -> nat, k: nat,
                               main: seq<Refined<T>> -> seq<Refined<T>>, worker: seq<Refined<T>> -> seq<Refined<T>>,
                               alone: seq<Refined<T>> -> seq<Refined<T>>)
    requires Permutes(main) && Permutes(worker) && Permutes(alone)
    requires SplitAgrees(Scored(cands, quality), k)
    ensures multiset(Split(cands, quality, k, main, worker)) == multiset(Refine(cands, quality, k, alone))
  {
    if k == 0 || |cands| <= k {
      SplitSameCandidates(cands, quality, k, main, worker, alone);
    } else {
      var all, mid := Scored(cands, quality), |cands| / 2;
      var t := KthBest(all, k);
      AgreeingTies(cands, quality, k, main, worker);
      SplitMatchesWhole(cands, quality, k, main, worker, alone);
      RefineIsTop(cands, quality, k, alone);
      CutCounts(all, k);
      RefineTies(cands, quality, k, alone, t);
      TiesDecide(Split(cands, quality, k, main, worker), Refine(cands, quality, k, alone), all, k);
    }
  }

  lemma AgreeingTies<T(!new)>(cands: seq<T>, quality: T -> nat, k: nat,
                              main: seq<Refined<T>> -> seq<Refined<T>>, worker: seq<Refined<T>> -> seq<Refined<T>>)
    requires Permutes(main) && Permutes(worker) && 0 < k < |cands| && SplitAgrees(Scored(cands, quality), k)
    ensures
      var all := Scored(cands, quality);
      var t := KthBest(all, k);
      multiset(Pick(Split(cands, quality, k, main, worker), t, Tied)) == multiset(KeptTies(all, t, k))
  {
    var all, mid := Scored(cands, quality), |cands| / 2;
    var t := KthBest(all, k);
    var head, tail := all[..mid], all[mid..];
    assert all == head + tail;
    CutCounts(all, k);
    AgreeingTiesFit(head, tail, t, k);
    FittingTies(cands, quality, k, main, worker);
  }

  lemma FittingTies<T(!new)>(cands: seq<T>, quality: T -> nat, k: nat,
                             main: seq<Refined<T>> -> seq<Refined<T>>, worker: seq<Refined<T>> -> seq<Refined<T>>)
    requires Permutes(main) && Permutes(worker) && 0 < k < |cands|
    requires
      var all, mid := Scored(cands, quality), |cands| / 2;
      var t := KthBest(all, k);
      |Pick(all, t, Over)| < k
      && Fits(KeptTies(all[..mid], t, k), KeptTies(all[mid..], t, k), KeptTies(all, t, k), k - |Pick(all, t, Over)|)
    ensures
      var all := Scored(cands, quality);
      var t := KthBest(all, k);
      multiset(Pick(Split(cands, quality, k, main, worker), t, Tied)) == multiset(KeptTies(all, t, k))
  {
    var all, mid := Scored(cands, quality), |cands| / 2;
    var t := KthBest(all, k);
    Halves(cands, quality);
    HalvesCount(all, mid, t, Over);
    SplitTies(cands, quality, k, main, worker);
    RefineTies(cands[..mid], quality, k, main, t);
    RefineTies(cands[mid..], quality, k, worker, t);
    FitsAnyDrain(KeptTies(all[..mid], t, k), KeptTies(all[mid..], t, k), KeptTies(all, t, k), k - |Pick(all, t, Over)|,
                 Pick(Refine(cands[..mid], quality, k, main), t, Tied),
                 Pick(Refine(cands[mid..], quality, k, worker), t, Tied));
  }

  /** Different candidates, in the sense of no two equal ones. */
  predicate Distinct<T(==)>(cands: seq<T>) {
    forall i, j :: 0 <= i < j < |cands| ==> cands[i] != cands[j]
  }

  lemma {:induction false} DistinctIsSingle<T(!new)>(cands: seq<T>, quality: T -> nat)
    requires Distinct(cands)
    ensures Single(multiset(Scored(cands, quality)))
  {
    if cands != [] {
      var n := |cands| - 1;
      DistinctIsSingle(cands[..n], quality);
      var last := Refined(cands[n], quality(cands[n]));
      ScoredSnoc(cands, quality, n);
      assert cands[..n + 1] == cands;
      MultisetSnoc(Scored(cands[..n], quality), last);
      assert last !in Scored(cands[..n], quality);
    }
  }

  /** Where it does not hold, some drain order of the two heaps has the split keep a
      candidate that one core, however it drains its own, lets go. */
  lemma DisagreeingSplit<T(!new)>(cands: seq<T>, quality: T -> nat, k: nat)
    returns (order: seq<Refined<T>> -> seq<Refined<T>>)
    requires Distinct(cands) && !SplitAgrees(Scored(cands, quality), k)
    ensures Permutes(order)
    ensures forall alone :: Permutes(alone) ==>
      multiset(Split(cands, quality, k, order, order)) != multiset(Refine(cands, quality, k, alone))
  {
    var all, mid := Scored(cands, quality), |cands| / 2;
    var t := KthBest(all, k);
    var x := DisagreeingTie(cands, quality, k);
    order := Leading(x);
    forall alone | Permutes(alone)
      ensures multiset(Split(cands, quality, k, order, order)) != multiset(Refine(cands, quality, k, alone))
    {
      CutCounts(all, k);
      SplitMatchesWhole(cands, quality, k, order, order, alone);
      RefineIsTop(cands, quality, k, alone);
      RefineTies(cands, quality, k, alone, t);
      TiesDecide(Split(cands, quality, k, order, order), Refine(cands, quality, k, alone), all, k);
      assert x !in multiset(KeptTies(all, t, k));
    }
  }

  lemma DisagreeingTie<T(!new)>(cands: seq<T>, quality: T -> nat, k: nat) returns (x: Refined<T>)
    requires Distinct(cands) && !SplitAgrees(Scored(cands, quality), k)
    ensures
      var all := Scored(cands, quality);
      var t := KthBest(all, k);
      && x !in KeptTies(all, t, k)
      && x in multiset(Pick(Split(cands, quality, k, Leading(x), Leading(x)), t, Tied))
  {
    var all, mid := Scored(cands, quality), |cands| / 2;
    var t := KthBest(all, k);
    var head, tail := all[..mid], all[mid..];
    Halves(cands, quality);
    assert all == head + tail;
    CutCounts(all, k);
    HalvesCount(all, mid, t, Over);
    DistinctIsSingle(cands, quality);
    x := TieThatEscapes(head, tail, t, k);
    EscapingTieIsKept(cands, quality, k, x);
  }

  lemma EscapingTieIsKept<T(!new)>(cands: seq<T>, quality: T -> nat, k: nat, x: Refined<T>)
    requires 0 < k < |cands|
    requires
      var all, mid := Scored(cands, quality), |cands| / 2;
      var t := KthBest(all, k);
      x in KeptTies(all[..mid], t, k)
      || (x in KeptTies(all[mid..], t, k) && |KeptTies(all[..mid], t, k)| + |Pick(all, t, Over)| < k)
    ensures
      x in multiset(Pick(Split(cands, quality, k, Leading(x), Leading(x)), KthBest(Scored(cands, quality), k), Tied))
  {
    var all, mid := Scored(cands, quality), |cands| / 2;
    var t := KthBest(all, k);
    Halves(cands, quality);
    CutCounts(all, k);
    HalvesCount(all, mid, t, Over);
    SplitTies(cands, quality, k, Leading(x), Leading(x));
    LedTies(cands[..mid], quality, k, t, x);
    LedTies(cands[mid..], quality, k, t, x);
    LeadIsKept(Pick(Refine(cands[..mid], quality, k, Leading(x)), t, Tied),
               Pick(Refine(cands[mid..], quality, k, Leading(x)), t, Tied), k - |Pick(all, t, Over)|, x);
  }

  /** Of distinct candidates, the split keeps those that one core would, whatever
      order the three heaps are drained in, if and only if `SplitAgrees`. */
  lemma SplitSameExactly<T(!new)>(cands: seq<T>, quality: T -> nat, k: nat)
    requires Distinct(cands)
    ensures
      SplitAgrees(Scored(cands, quality), k)
      <==> forall main, worker, alone :: Permutes(main) && Permutes(worker) && Permutes(alone) ==>
             multiset(Split(cands, quality, k, main, worker)) == multiset(Refine(cands, quality, k, alone))
  {
    if SplitAgrees(Scored(cands, quality), k) {
      forall main, worker, alone | Permutes(main) && Permutes(worker) && Permutes(alone)
        ensures multiset(Split(cands, quality, k, main, worker)) == multiset(Refine(cands, quality, k, alone))
      {
        AgreeingSplit(cands, quality, k, main, worker, alone);
      }
    } else {
      var order := DisagreeingSplit(cands, quality, k);
      var same := (s: seq<Refined<T>>) => s;
      assert Permutes(same);
    }
  }

  lemma DifferingDisagrees<T(!new)>(cands: seq<T>, quality: T -> nat, k: nat, order: seq<Refined<T>> -> seq<Refined<T>>,
                                    a: T, b: T, c: T, p: nat, q: nat)
    requires Permutes(order) && b != c
    requires Refine(cands, quality, k, order) == [Refined(a, p), Refined(b, q)]
    requires Split(cands, quality, k, order, order) == [Refined(a, p), Refined(c, q)]
    ensures !SplitAgrees(Scored(cands, quality), k)
  {
    NotTheSame(Refined(a, p), Refined(b, q), Refined(c, q));
    if SplitAgrees(Scored(cands, quality), k) {
      AgreeingSplit(cands, quality, k, order, order, order);
    }
  }

  lemma NotTheSame<T>(a: T, b: T, c: T)
    requires b != c
    ensures multiset([a, b]) != multiset([a, c])
  {
    assert multiset([a, b])[b] == multiset([a, c])[b] + 1;
  }

  ghost function AsItComes<T(!new)>(): (order: seq<Refined<T>> -> seq<Refined<T>>)
    ensures Permutes(order)
  {
    (s: seq<Refined<T>>) => s
  }

  /** The candidates of `SplitMayDiffer` are such a list. */
  lemma TheTieDisagrees(cands: seq<nat>, k: nat)
    requires cands == [10, 11, 20] && k == 2
    ensures !SplitAgrees(Scored(cands, Tens), k)
  {
    SplitMayDiffer(cands, AsItComes());
    DifferingDisagrees(cands, Tens, k, AsItComes(), 20, 11, 10, 2, 1);
  }
}

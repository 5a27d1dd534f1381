/** Which ties the bounded heap of `refine_candidates_with`
    (mfsk-core/src/ft8/decode_block/process_candidates.rs) keeps: it evicts the
    earliest of its worst entries. */
module HeapTies {

  import opened Common
  import opened TopK

  // ---- The entries on one side of a quality ---------------------------------------------

  datatype Part = Over | Tied | Reaching

  predicate In(part: Part, q: nat, t: nat) {
    match part
    case Over => q > t
    case Tied => q == t
    case Reaching => q >= t
  }

  /** The entries better than `t`, equal to it, or either, in their order. */
  function Pick<T>(s: seq<Refined<T>>, t: nat, part: Part): (r: seq<Refined<T>>)
    ensures |r| <= |s|
  {
    if s == [] then []
    else
      var before := Pick(s[..|s| - 1], t, part);
      if In(part, s[|s| - 1].q, t) then before + [s[|s| - 1]] else before
  }

  lemma PickSnoc<T>(s: seq<Refined<T>>, x: Refined<T>, t: nat, part: Part)
    ensures Pick(s + [x], t, part) == if In(part, x.q, t) then Pick(s, t, part) + [x] else Pick(s, t, part)
  {
    assert (s + [x])[..|s|] == s;
  }

  lemma ConcatSnoc<T>(a: seq<T>, b: seq<T>, x: T)
    ensures a + (b + [x]) == (a + b) + [x]
  {
  }

  lemma PickConcatSnoc<T>(a: seq<Refined<T>>, b: seq<Refined<T>>, x: Refined<T>, t: nat, part: Part)
    requires Pick(a + b, t, part) == Pick(a, t, part) + Pick(b, t, part)
    ensures Pick(a + (b + [x]), t, part) == Pick(a, t, part) + Pick(b + [x], t, part)
  {
    ConcatSnoc(a, b, x);
    PickSnoc(a + b, x, t, part);
    PickSnoc(b, x, t, part);
    ConcatSnoc(Pick(a, t, part), Pick(b, t, part), x);
  }

  lemma {:induction false} PickConcat<T>(a: seq<Refined<T>>, b: seq<Refined<T>>, t: nat, part: Part)
    ensures Pick(a + b, t, part) == Pick(a, t, part) + Pick(b, t, part)
  {
    if b == [] {
      assert a + b == a;
    } else {
      var init, last := b[..|b| - 1], b[|b| - 1];
      PickConcat(a, init, t, part);
      PickConcatSnoc(a, init, last, t, part);
      assert b == init + [last];
    }
  }

  lemma {:induction false} PickAll<T>(s: seq<Refined<T>>, t: nat, part: Part)
    requires forall i :: 0 <= i < |s| ==> In(part, s[i].q, t)
    ensures Pick(s, t, part) == s
  {
    if s != [] {
      PickAll(s[..|s| - 1], t, part);
    }
  }

  lemma {:induction false} PickNone<T>(s: seq<Refined<T>>, t: nat, part: Part)
    requires forall i :: 0 <= i < |s| ==> !In(part, s[i].q, t)
    ensures Pick(s, t, part) == []
  {
    if s != [] {
      PickNone(s[..|s| - 1], t, part);
    }
  }

  lemma {:induction false} PickCounts<T>(s: seq<Refined<T>>, t: nat)
    ensures |Pick(s, t, Reaching)| == |Pick(s, t, Over)| + |Pick(s, t, Tied)|
    ensures |Pick(s, t, Reaching)| == |s| ==> forall i :: 0 <= i < |s| ==> s[i].q >= t
  {
    if s != [] {
      PickCounts(s[..|s| - 1], t);
    }
  }

  /** Picking twice. */
  lemma {:induction false} PickReaching<T>(s: seq<Refined<T>>, t: nat, part: Part)
    ensures Pick(Pick(s, t, Reaching), t, part) == Pick(s, t, part)
  {
    if s != [] {
      var init, last := s[..|s| - 1], s[|s| - 1];
      PickReaching(init, t, part);
      PickSnoc(Pick(init, t, Reaching), last, t, part);
    }
  }

  lemma {:induction false} PickMultiplicity<T>(s: seq<Refined<T>>, t: nat, part: Part, x: Refined<T>)
    ensures multiset(Pick(s, t, part))[x] == if In(part, x.q, t) then multiset(s)[x] else 0
  {
    if s != [] {
      var init, last := s[..|s| - 1], s[|s| - 1];
      PickMultiplicity(init, t, part, x);
      assert s == init + [last];
      MultisetSnoc(Pick(init, t, part), last);
    }
  }

  lemma SameMultiset<T>(a: multiset<T>, b: multiset<T>)
    requires forall x :: a[x] == b[x]
    ensures a == b
  {
  }

  lemma SameLength<T>(a: seq<T>, b: seq<T>)
    requires multiset(a) == multiset(b)
    ensures |a| == |b|
  {
    assert |multiset(a)| == |multiset(b)|;
  }

  lemma PickPermutes<T>(a: seq<Refined<T>>, b: seq<Refined<T>>, t: nat, part: Part)
    requires multiset(a) == multiset(b)
    ensures multiset(Pick(a, t, part)) == multiset(Pick(b, t, part))
  {
    forall x: Refined<T> ensures multiset(Pick(a, t, part))[x] == multiset(Pick(b, t, part))[x] {
      PickMultiplicity(a, t, part, x);
      PickMultiplicity(b, t, part, x);
    }
    SameMultiset(multiset(Pick(a, t, part)), multiset(Pick(b, t, part)));
  }

  lemma PickSameCount<T>(a: seq<Refined<T>>, b: seq<Refined<T>>, t: nat, part: Part)
    requires multiset(a) == multiset(b)
    ensures |Pick(a, t, part)| == |Pick(b, t, part)|
  {
    PickPermutes(a, b, t, part);
    SameLength(Pick(a, t, part), Pick(b, t, part));
  }

  lemma PickWithin<T>(s: seq<Refined<T>>, t: nat, part: Part)
    ensures multiset(Pick(s, t, part)) <= multiset(s)
  {
    forall x: Refined<T> ensures multiset(Pick(s, t, part))[x] <= multiset(s)[x] {
      PickMultiplicity(s, t, part, x);
    }
  }

  // ---- The heap's entries in input order --------------------------------------------------

  /** The first of the worst entries. */
  function FirstWorst<T>(s: seq<Refined<T>>): (m: nat)
    requires s != []
    ensures m < |s|
    ensures forall i :: 0 <= i < |s| ==> s[m].q <= s[i].q
    ensures forall i :: 0 <= i < m ==> s[m].q < s[i].q
  {
    if |s| == 1 then 0
    else
      var m := FirstWorst(s[..|s| - 1]);
      if s[|s| - 1].q < s[m].q then |s| - 1 else m
  }

  function Without<T>(s: seq<T>, m: nat): seq<T>
    requires m < |s|
  {
    s[..m] + s[m + 1..]
  }

  /** One more candidate offered to the heap, whose entries are kept in order. */
  function KeepOne<T>(s: seq<Refined<T>>, x: Refined<T>, k: nat): seq<Refined<T>> {
    if |s| < k then s + [x]
    else if s != [] && x.q > s[FirstWorst(s)].q then Without(s, FirstWorst(s)) + [x]
    else s
  }

  function Kept<T>(s: seq<Refined<T>>, k: nat): (r: seq<Refined<T>>)
    ensures |r| == Min(|s|, k)
  {
    if s == [] then [] else KeepOne(Kept(s[..|s| - 1], k), s[|s| - 1], k)
  }

  /** A heap's slots in the order of their indices. */
  ghost predicate InOrder<T>(heap: seq<Slot<T>>, line: seq<Slot<T>>, n: nat) {
    && multiset(heap) == multiset(line)
    && (forall i, j :: 0 <= i < j < |line| ==> line[i].idx < line[j].idx)
    && (forall i :: 0 <= i < |line| ==> line[i].idx < n)
  }

  /** The heap's top is least in quality, then in index. */
  lemma {:induction false} TopIsLeast<T>(heap: seq<Slot<T>>)
    requires heap != []
    ensures forall i :: 0 <= i < |heap| ==> !Below(heap[i], heap[MinIndex(heap)])
  {
    if |heap| > 1 {
      TopIsLeast(heap[..|heap| - 1]);
      assert forall i :: 0 <= i < |heap| - 1 ==> heap[..|heap| - 1][i] == heap[i];
    }
  }

  /** So it is the first of the worst in input order. */
  lemma TopIsFirstWorst<T>(heap: seq<Slot<T>>, line: seq<Slot<T>>, n: nat)
    requires heap != [] && InOrder(heap, line, n)
    ensures line != []
    ensures heap[MinIndex(heap)] == line[FirstWorst(Contents(line))]
  {
    SameLength(heap, line);
    TopIsLeast(heap);
    var top, m := heap[MinIndex(heap)], FirstWorst(Contents(line));
    assert top in multiset(heap) && line[m] in multiset(line);
    var i :| 0 <= i < |heap| && heap[i] == line[m];
    var j :| 0 <= j < |line| && line[j] == top;
    assert Contents(line)[j].q == top.q && Contents(line)[m].q == line[m].q;
    assert !Below(line[m], top);
  }

  lemma WithoutMultiset<T>(s: seq<T>, m: nat)
    requires m < |s|
    ensures multiset(Without(s, m)) == multiset(s) - multiset{s[m]}
  {
    assert s == s[..m] + [s[m]] + s[m + 1..];
  }

  lemma ContentsWithout<T>(line: seq<Slot<T>>, m: nat, x: Slot<T>)
    requires m < |line|
    ensures Contents(Without(line, m) + [x]) == Without(Contents(line), m) + [Refined(x.cand, x.q)]
  {
  }

  lemma ReplaceMultiset<T>(s: seq<T>, t: seq<T>, h: nat, m: nat, x: T)
    requires multiset(s) == multiset(t) && h < |s| && m < |t| && s[h] == t[m]
    ensures multiset(s[h := x]) == multiset(Without(t, m) + [x])
  {
    WithoutMultiset(t, m);
    MultisetSnoc(Without(t, m), x);
  }

  lemma WithoutInOrder<T>(heap: seq<Slot<T>>, line: seq<Slot<T>>, x: Slot<T>, h: nat, m: nat)
    requires InOrder(heap, line, x.idx) && h < |heap| && m < |line| && heap[h] == line[m]
    ensures InOrder(heap[h := x], Without(line, m) + [x], x.idx + 1)
  {
    ReplaceMultiset(heap, line, h, m, x);
    var rest := Without(line, m);
    forall i | 0 <= i < |rest| ensures rest[i] == line[if i < m then i else i + 1] {
    }
  }

  lemma PushInOrder<T>(heap: seq<Slot<T>>, line: seq<Slot<T>>, x: Slot<T>)
    requires InOrder(heap, line, x.idx)
    ensures InOrder(heap + [x], line + [x], x.idx + 1)
  {
    MultisetSnoc(line, x);
    MultisetSnoc(heap, x);
  }

  /** One offer, in order. */
  function LineOffer<T>(line: seq<Slot<T>>, x: Slot<T>, k: nat): seq<Slot<T>> {
    if |line| < k then line + [x]
    else if line != [] && x.q > line[FirstWorst(Contents(line))].q then Without(line, FirstWorst(Contents(line))) + [x]
    else line
  }

  lemma LineContents<T>(line: seq<Slot<T>>, x: Slot<T>, k: nat)
    ensures Contents(LineOffer(line, x, k)) == KeepOne(Contents(line), Refined(x.cand, x.q), k)
  {
    if |line| < k {
      assert Contents(line + [x]) == Contents(line) + [Refined(x.cand, x.q)];
    } else if line != [] {
      var m := FirstWorst(Contents(line));
      ContentsWithout(line, m, x);
      assert Contents(line)[m].q == line[m].q;
    }
  }

  lemma OfferInOrder<T>(heap: seq<Slot<T>>, line: seq<Slot<T>>, x: Slot<T>, k: nat)
    requires InOrder(heap, line, x.idx)
    ensures InOrder(Offer(heap, x, k), LineOffer(line, x, k), x.idx + 1)
  {
    SameLength(heap, line);
    if |heap| < k {
      PushInOrder(heap, line, x);
    } else if heap != [] {
      var m := TopInOrder(heap, line, x.idx);
      if x.q > line[m].q {
        WithoutInOrder(heap, line, x, MinIndex(heap), m);
      }
    }
  }

  lemma TopInOrder<T>(heap: seq<Slot<T>>, line: seq<Slot<T>>, n: nat) returns (m: nat)
    requires heap != [] && InOrder(heap, line, n)
    ensures line != [] && m == FirstWorst(Contents(line))
    ensures heap[MinIndex(heap)] == line[m]
  {
    TopIsFirstWorst(heap, line, n);
    m := FirstWorst(Contents(line));
  }

  lemma {:induction false} HeapInOrder<T>(cands: seq<T>, quality: T -> nat, k: nat, n: nat) returns (line: seq<Slot<T>>)
    requires n <= |cands|
    ensures InOrder(HeapAfter(cands, quality, k, n), line, n)
    ensures Contents(line) == Kept(Scored(cands[..n], quality), k)
  {
    line := [];
    if n > 0 {
      var before := HeapInOrder(cands, quality, k, n - 1);
      var x := Slot(quality(cands[n - 1]), n - 1, cands[n - 1]);
      OfferInOrder(HeapAfter(cands, quality, k, n - 1), before, x, k);
      LineContents(before, x, k);
      line := LineOffer(before, x, k);
      ScoredSnoc(cands, quality, n - 1);
      var all, r := Scored(cands[..n - 1], quality), Refined(x.cand, x.q);
      assert (all + [r])[..|all|] == all;
    }
  }

  lemma ContentsRemove<T>(a: seq<Slot<T>>, m: nat)
    requires m < |a|
    ensures multiset(Contents(a)) == multiset(Contents(Without(a, m))) + multiset{Refined(a[m].cand, a[m].q)}
  {
    assert Contents(Without(a, m)) == Without(Contents(a), m);
    WithoutMultiset(Contents(a), m);
    assert Contents(a)[m] in multiset(Contents(a));
  }

  lemma {:induction false} ContentsPermute<T>(a: seq<Slot<T>>, b: seq<Slot<T>>)
    requires multiset(a) == multiset(b)
    ensures multiset(Contents(a)) == multiset(Contents(b))
    decreases |a|
  {
    SameLength(a, b);
    if a != [] {
      assert a[0] in multiset(b);
      var m :| 0 <= m < |b| && b[m] == a[0];
      WithoutMultiset(a, 0);
      WithoutMultiset(b, m);
      ContentsPermute(Without(a, 0), Without(b, m));
      ContentsRemove(a, 0);
      ContentsRemove(b, m);
    } else {
      assert b == [];
    }
  }

  /** The heap holds the entries `Kept` says, in some order. */
  lemma HeapIsKept<T>(cands: seq<T>, quality: T -> nat, k: nat)
    ensures multiset(Contents(HeapAfter(cands, quality, k, |cands|))) == multiset(Kept(Scored(cands, quality), k))
  {
    var line := HeapInOrder(cands, quality, k, |cands|);
    assert cands[..|cands|] == cands;
    ContentsPermute(HeapAfter(cands, quality, k, |cands|), line);
  }

  // ---- Which ties the heap keeps -------------------------------------------------------------

  function Front<T>(s: seq<T>, n: nat): seq<T> {
    if n < |s| then s[..n] else s
  }

  function Back<T>(s: seq<T>, n: nat): seq<T> {
    if n < |s| then s[|s| - n..] else s
  }

  /** Of the first `k` entries that reach `t`, the last ties, as many as the entries
      above `t` leave room for. */
  function KeptTies<T>(s: seq<Refined<T>>, t: nat, k: nat): seq<Refined<T>> {
    if |Pick(s, t, Over)| <= k then Back(Pick(Front(Pick(s, t, Reaching), k), t, Tied), k - |Pick(s, t, Over)|) else []
  }

  /** With room for all that reach `t`, every tie. */
  lemma FewTies<T>(s: seq<Refined<T>>, t: nat, k: nat)
    requires |Pick(s, t, Reaching)| <= k
    ensures KeptTies(s, t, k) == Pick(s, t, Tied)
  {
    PickCounts(s, t);
    PickReaching(s, t, Tied);
    assert Front(Pick(s, t, Reaching), k) == Pick(s, t, Reaching);
  }

  /** Otherwise the entries above `t` and the kept ties fill the heap. */
  lemma ManyTies<T>(s: seq<Refined<T>>, t: nat, k: nat)
    requires |Pick(s, t, Over)| <= k <= |Pick(s, t, Reaching)|
    ensures |KeptTies(s, t, k)| == k - |Pick(s, t, Over)|
    ensures |Pick(Front(Pick(s, t, Reaching), k), t, Tied)| >= k - |Pick(s, t, Over)|
  {
    var r := Pick(s, t, Reaching);
    var front := Front(r, k);
    assert r == front + r[k..];
    PickConcat(front, r[k..], t, Over);
    PickReaching(s, t, Over);
    FrontReaches(s, t, k);
    PickCounts(front, t);
  }

  lemma FrontReaches<T>(s: seq<Refined<T>>, t: nat, k: nat)
    ensures
      var front := Front(Pick(s, t, Reaching), k);
      Pick(front, t, Reaching) == front
  {
    var r := Pick(s, t, Reaching);
    PickReaching(s, t, Reaching);
    PickCounts(r, t);
    PickAll(Front(r, k), t, Reaching);
  }

  lemma TiesCount<T>(s: seq<Refined<T>>, t: nat, k: nat)
    requires |Pick(s, t, Over)| <= k
    ensures |Pick(s, t, Over)| + |KeptTies(s, t, k)| == Min(|Pick(s, t, Reaching)|, k)
  {
    if |Pick(s, t, Reaching)| <= k {
      FewTies(s, t, k);
      PickCounts(s, t);
    } else {
      ManyTies(s, t, k);
    }
  }

  /** Once `k` entries reach `t`, only entries above it change the kept ties: each
      costs the first of them its place. */
  lemma LateOffer<T>(s: seq<Refined<T>>, x: Refined<T>, t: nat, k: nat)
    requires |Pick(s, t, Reaching)| >= k && |Pick(s + [x], t, Over)| <= k
    ensures |Pick(s, t, Over)| <= k
    ensures x.q <= t ==> KeptTies(s + [x], t, k) == KeptTies(s, t, k)
    ensures x.q > t ==> KeptTies(s, t, k) != [] && KeptTies(s + [x], t, k) == KeptTies(s, t, k)[1..]
  {
    PickSnoc(s, x, t, Over);
    ManyTies(s, t, k);
    SameFront(s, x, t, k);
    if x.q > t {
      OneLess(Pick(Front(Pick(s, t, Reaching), k), t, Tied), k - |Pick(s, t, Over)|);
    }
  }

  lemma SameFront<T>(s: seq<Refined<T>>, x: Refined<T>, t: nat, k: nat)
    requires |Pick(s, t, Reaching)| >= k
    ensures Front(Pick(s + [x], t, Reaching), k) == Front(Pick(s, t, Reaching), k)
  {
    PickSnoc(s, x, t, Reaching);
  }

  lemma OneLess<T>(s: seq<T>, n: nat)
    requires 0 < n <= |s|
    ensures Back(s, n) != [] && Back(s, n - 1) == Back(s, n)[1..]
  {
  }

  /** Removing an entry changes only the parts it is in; the first tie leaves the others. */
  lemma WithoutOther<T>(s: seq<Refined<T>>, m: nat, t: nat, part: Part)
    requires m < |s| && !In(part, s[m].q, t)
    ensures Pick(Without(s, m), t, part) == Pick(s, t, part)
  {
    Around(s, m, t, part);
    PickConcat(s[..m], s[m + 1..], t, part);
  }

  lemma WithoutFirstTie<T>(s: seq<Refined<T>>, m: nat, t: nat)
    requires m < |s| && s[m].q == t && forall i :: 0 <= i < m ==> s[i].q > t
    ensures Pick(s, t, Tied) == [s[m]] + Pick(Without(s, m), t, Tied)
  {
    Around(s, m, t, Tied);
    PickConcat(s[..m], s[m + 1..], t, Tied);
    PickNone(s[..m], t, Tied);
  }

  lemma Around<T>(s: seq<Refined<T>>, m: nat, t: nat, part: Part)
    requires m < |s|
    ensures Pick(s, t, part)
         == Pick(s[..m], t, part) + (if In(part, s[m].q, t) then [s[m]] else []) + Pick(s[m + 1..], t, part)
  {
    assert s == (s[..m] + [s[m]]) + s[m + 1..];
    PickConcat(s[..m] + [s[m]], s[m + 1..], t, part);
    PickSnoc(s[..m], s[m], t, part);
  }

  /** What holds of the kept entries at every quality that fewer than `k` exceed. */
  ghost predicate KeepsTies<T>(kept: seq<Refined<T>>, s: seq<Refined<T>>, t: nat, k: nat) {
    Pick(kept, t, Over) == Pick(s, t, Over) && Pick(kept, t, Tied) == KeptTies(s, t, k)
  }

  lemma OfferBelow<T>(kept: seq<Refined<T>>, s: seq<Refined<T>>, x: Refined<T>, t: nat, k: nat)
    requires |kept| == Min(|s|, k) && KeepsTies(kept, s, t, k)
    requires |Pick(s, t, Reaching)| < k && |Pick(s + [x], t, Over)| <= k
    ensures KeepsTies(KeepOne(kept, x, k), s + [x], t, k)
  {
    FewTies(s, t, k);
    PickSnoc(s, x, t, Over);
    PickSnoc(s, x, t, Tied);
    PickSnoc(s, x, t, Reaching);
    FewTies(s + [x], t, k);
    if |kept| < k {
      PickSnoc(kept, x, t, Over);
      PickSnoc(kept, x, t, Tied);
    } else {
      WorstIsBelow(kept, s, t, k);
      var m := FirstWorst(kept);
      WithoutOther(kept, m, t, Over);
      WithoutOther(kept, m, t, Tied);
      PickSnoc(Without(kept, m), x, t, Over);
      PickSnoc(Without(kept, m), x, t, Tied);
    }
  }

  lemma WorstIsBelow<T>(kept: seq<Refined<T>>, s: seq<Refined<T>>, t: nat, k: nat)
    requires KeepsTies(kept, s, t, k) && |kept| == k > |Pick(s, t, Reaching)|
    ensures kept[FirstWorst(kept)].q < t
  {
    FewTies(s, t, k);
    PickCounts(s, t);
    PickCounts(kept, t);
    if kept[FirstWorst(kept)].q >= t {
      PickAll(kept, t, Reaching);
    }
  }

  lemma OfferFull<T>(kept: seq<Refined<T>>, s: seq<Refined<T>>, x: Refined<T>, t: nat, k: nat)
    requires |kept| == k && KeepsTies(kept, s, t, k)
    requires |Pick(s, t, Reaching)| >= k && |Pick(s + [x], t, Over)| <= k
    ensures KeepsTies(KeepOne(kept, x, k), s + [x], t, k)
  {
    LateOffer(s, x, t, k);
    PickSnoc(s, x, t, Over);
    TiesCount(s, t, k);
    PickCounts(kept, t);
    if x.q > t {
      WorstIsTied(kept, t);
      EvictsATie(kept, x, t, k);
    }
  }

  /** An entry above `t` takes the place of the first tie. */
  lemma EvictsATie<T>(kept: seq<Refined<T>>, x: Refined<T>, t: nat, k: nat)
    requires |kept| >= k && kept != [] && x.q > t == kept[FirstWorst(kept)].q
    ensures Pick(KeepOne(kept, x, k), t, Over) == Pick(kept, t, Over) + [x]
    ensures Pick(kept, t, Tied) == [kept[FirstWorst(kept)]] + Pick(KeepOne(kept, x, k), t, Tied)
  {
    var m := FirstWorst(kept);
    WithoutOther(kept, m, t, Over);
    WithoutFirstTie(kept, m, t);
    PickSnoc(Without(kept, m), x, t, Over);
    PickSnoc(Without(kept, m), x, t, Tied);
  }

  lemma WorstIsTied<T>(kept: seq<Refined<T>>, t: nat)
    requires |Pick(kept, t, Over)| < |kept| && forall i :: 0 <= i < |kept| ==> kept[i].q >= t
    ensures kept[FirstWorst(kept)].q == t
  {
    if kept[FirstWorst(kept)].q > t {
      PickAll(kept, t, Over);
    }
  }

  /** At every quality that at most `k` entries exceed, the heap keeps all of those
      and, of the ties, the last ones among the first `k` entries that reach it. */
  lemma {:induction false} HeapKeepsTies<T>(s: seq<Refined<T>>, t: nat, k: nat)
    requires |Pick(s, t, Over)| <= k
    ensures Pick(Kept(s, k), t, Over) == Pick(s, t, Over)
    ensures Pick(Kept(s, k), t, Tied) == KeptTies(s, t, k)
  {
    if s != [] {
      var init, x := s[..|s| - 1], s[|s| - 1];
      assert s == init + [x];
      PickSnoc(init, x, t, Over);
      HeapKeepsTies(init, t, k);
      if |Pick(init, t, Reaching)| < k {
        OfferBelow(Kept(init, k), init, x, t, k);
      } else {
        OfferFull(Kept(init, k), init, x, t, k);
      }
    }
  }
}

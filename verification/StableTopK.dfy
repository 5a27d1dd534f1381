/** What `pass2_split` would promise if each core's selection were stable: the very
    list one core would have produced. (The heap it uses is not stable; TopK says what
    holds then.) */
module StableTopK {

  import opened TopK

  /** The entries of `t` inserted into `s` one after another. */
  function Into<T>(s: seq<Refined<T>>, t: seq<Refined<T>>): seq<Refined<T>> {
    if t == [] then s else Insert(Into(s, t[..|t| - 1]), t[|t| - 1])
  }

  lemma {:induction false} IntoDescends<T>(s: seq<Refined<T>>, t: seq<Refined<T>>)
    requires Descending(s)
    ensures Descending(Into(s, t))
  {
    if t != [] {
      IntoDescends(s, t[..|t| - 1]);
      InsertDescends(Into(s, t[..|t| - 1]), t[|t| - 1]);
    }
  }

  lemma {:induction false} IntoBag<T>(s: seq<Refined<T>>, t: seq<Refined<T>>)
    ensures multiset(Into(s, t)) == multiset(s) + multiset(t)
    ensures |Into(s, t)| == |s| + |t|
  {
    if t != [] {
      var init, last := t[..|t| - 1], t[|t| - 1];
      IntoBag(s, init);
      assert t == init + [last];
    }
    assert |multiset(Into(s, t))| == |multiset(s)| + |multiset(t)|;
  }

  lemma IntoSnoc<T>(s: seq<Refined<T>>, t: seq<Refined<T>>, x: Refined<T>)
    ensures Into(s, t + [x]) == Insert(Into(s, t), x)
  {
    assert (t + [x])[..|t|] == t;
  }

  lemma {:induction false} IntoAppend<T>(s: seq<Refined<T>>, a: seq<Refined<T>>, b: seq<Refined<T>>)
    ensures Into(s, a + b) == Into(Into(s, a), b)
  {
    if b == [] {
      assert a + b == a;
    } else {
      var init, last := b[..|b| - 1], b[|b| - 1];
      assert a + b == (a + init) + [last];
      IntoSnoc(s, a + init, last);
      IntoAppend(s, a, init);
    }
  }

  lemma {:induction false} SortedIsInto<T>(s: seq<Refined<T>>)
    ensures Sorted(s) == Into([], s)
  {
    if s != [] {
      SortedIsInto(s[..|s| - 1]);
    }
  }

  lemma InsertAtEnd<T>(s: seq<Refined<T>>, x: Refined<T>)
    requires s == [] || s[|s| - 1].q >= x.q
    ensures Insert(s, x) == s + [x]
  {
  }

  lemma InsertBefore<T>(s: seq<Refined<T>>, l: Refined<T>, x: Refined<T>)
    requires l.q < x.q
    ensures Insert(s + [l], x) == Insert(s, x) + [l]
  {
    assert (s + [l])[..|s|] == s;
  }

  /** Entries of different quality can be inserted in either order. */
  lemma {:induction false} InsertsCommute<T>(s: seq<Refined<T>>, x: Refined<T>, y: Refined<T>)
    requires Descending(s) && x.q > y.q
    ensures Insert(Insert(s, x), y) == Insert(Insert(s, y), x)
  {
    if s == [] || s[|s| - 1].q >= x.q {
      InsertAtEnd(s, x);
      InsertAtEnd(s, y);
      InsertAtEnd(s + [x], y);
      InsertBefore(s, y, x);
    } else {
      var init, l := s[..|s| - 1], s[|s| - 1];
      assert s == init + [l];
      if l.q >= y.q {
        CommuteAcross(init, l, x, y);
      } else {
        InsertsCommute(init, x, y);
        CommuteAbove(init, l, x, y);
      }
    }
  }

  lemma CommuteAcross<T>(init: seq<Refined<T>>, l: Refined<T>, x: Refined<T>, y: Refined<T>)
    requires x.q > l.q >= y.q
    ensures Insert(Insert(init + [l], x), y) == Insert(Insert(init + [l], y), x)
  {
    InsertBefore(init, l, x);
    InsertAtEnd(Insert(init, x) + [l], y);
    InsertAtEnd(init + [l], y);
    InsertBefore(init + [l], y, x);
  }

  lemma CommuteAbove<T>(init: seq<Refined<T>>, l: Refined<T>, x: Refined<T>, y: Refined<T>)
    requires x.q > l.q && y.q > l.q && Insert(Insert(init, x), y) == Insert(Insert(init, y), x)
    ensures Insert(Insert(init + [l], x), y) == Insert(Insert(init + [l], y), x)
  {
    InsertBefore(init, l, x);
    InsertBefore(init, l, y);
    InsertBefore(Insert(init, x), l, y);
    InsertBefore(Insert(init, y), l, x);
  }

  /** Inserting into what is inserted is inserting last. */
  lemma {:induction false} IntoInsert<T>(s: seq<Refined<T>>, t: seq<Refined<T>>, x: Refined<T>)
    requires Descending(s) && Descending(t)
    ensures Into(s, Insert(t, x)) == Insert(Into(s, t), x)
  {
    if t == [] || t[|t| - 1].q >= x.q {
      InsertAtEnd(t, x);
      IntoSnoc(s, t, x);
    } else {
      var init, l := t[..|t| - 1], t[|t| - 1];
      assert t == init + [l];
      InsertBefore(init, l, x);
      IntoSnoc(s, Insert(init, x), l);
      IntoInsert(s, init, x);
      IntoDescends(s, init);
      InsertsCommute(Into(s, init), x, l);
      IntoSnoc(s, init, l);
    }
  }

  /** So sorting what is inserted changes nothing. */
  lemma {:induction false} IntoSorted<T>(s: seq<Refined<T>>, t: seq<Refined<T>>)
    requires Descending(s)
    ensures Into(s, Sorted(t)) == Into(s, t)
  {
    if t != [] {
      var init, x := t[..|t| - 1], t[|t| - 1];
      SortedDescends(init);
      IntoInsert(s, Sorted(init), x);
      IntoSorted(s, init);
    }
  }

  lemma {:induction false} SortedOfSorted<T>(s: seq<Refined<T>>)
    requires Descending(s)
    ensures Sorted(s) == s
  {
    if s != [] {
      var init, x := s[..|s| - 1], s[|s| - 1];
      assert s == init + [x];
      SortedOfSorted(init);
      SortedSnoc(init, x, init);
      InsertAtEnd(init, x);
    }
  }

  function Take<T>(s: seq<T>, k: nat): seq<T> {
    if |s| <= k then s else s[..k]
  }

  lemma TakePast<T>(s: seq<T>, l: T, k: nat)
    requires k <= |s|
    ensures Take(s + [l], k) == Take(s, k) == s[..k]
  {
    assert (s + [l])[..k] == s[..k];
  }

  lemma InsertLength<T>(s: seq<Refined<T>>, x: Refined<T>)
    ensures |Insert(s, x)| == |s| + 1
  {
    assert |multiset(Insert(s, x))| == |multiset(s)| + 1;
  }

  /** An entry no better than the k-th does not reach the first k. */
  lemma {:induction false} InsertBelow<T>(s: seq<Refined<T>>, x: Refined<T>, k: nat)
    requires Descending(s) && k <= |s| && (k > 0 ==> s[k - 1].q >= x.q)
    ensures Take(Insert(s, x), k) == s[..k]
  {
    InsertLength(s, x);
    if s == [] || s[|s| - 1].q >= x.q {
      InsertAtEnd(s, x);
      assert (s + [x])[..k] == s[..k];
    } else {
      var init, l := s[..|s| - 1], s[|s| - 1];
      assert s == init + [l];
      InsertBefore(init, l, x);
      InsertLength(init, x);
      InsertBelow(init, x, k);
      assert (Insert(init, x) + [l])[..k] == Insert(init, x)[..k];
      assert init[..k] == s[..k];
    }
  }

  /** Cutting before inserting loses nothing of the first k. */
  lemma {:induction false} TakeInsert<T>(s: seq<Refined<T>>, x: Refined<T>, k: nat)
    requires Descending(s)
    ensures Take(Insert(s, x), k) == Take(Insert(Take(s, k), x), k)
  {
    if |s| > k {
      if k == 0 || s[k - 1].q >= x.q {
        InsertBelow(s, x, k);
        InsertBelow(s[..k], x, k);
        assert s[..k][..k] == s[..k];
      } else {
        var init, l := s[..|s| - 1], s[|s| - 1];
        assert s == init + [l];
        InsertBefore(init, l, x);
        InsertLength(init, x);
        TakeInsert(init, x, k);
        TakePast(Insert(init, x), l, k);
        TakePast(init, l, k);
      }
    }
  }

  lemma TakeDescends<T>(s: seq<Refined<T>>, k: nat)
    requires Descending(s)
    ensures Descending(Take(s, k))
  {
  }

  lemma {:induction false} TakeInto<T>(s: seq<Refined<T>>, t: seq<Refined<T>>, k: nat)
    requires Descending(s)
    ensures Take(Into(s, t), k) == Take(Into(Take(s, k), t), k)
  {
    TakeDescends(s, k);
    if t == [] {
      assert Take(Take(s, k), k) == Take(s, k);
    } else {
      var init, x := t[..|t| - 1], t[|t| - 1];
      TakeInto(s, init, k);
      IntoDescends(s, init);
      IntoDescends(Take(s, k), init);
      TakeInsert(Into(s, init), x, k);
      TakeInsert(Into(Take(s, k), init), x, k);
    }
  }

  /** Nor does what follows the k-th entry of the list inserted. */
  lemma {:induction false} IntoTake<T>(s: seq<Refined<T>>, t: seq<Refined<T>>, k: nat)
    requires Descending(s) && Descending(t)
    ensures Take(Into(s, t), k) == Take(Into(s, Take(t, k)), k)
  {
    if |t| > k {
      var init, l := t[..|t| - 1], t[|t| - 1];
      assert t == init + [l];
      TakePast(init, l, k);
      IntoTake(s, init, k);
      LastIsTooLow(s, init, l, k);
    }
  }

  lemma LastIsTooLow<T>(s: seq<Refined<T>>, init: seq<Refined<T>>, l: Refined<T>, k: nat)
    requires Descending(s) && k <= |init| && forall i :: 0 <= i < |init| ==> init[i].q >= l.q
    ensures Take(Insert(Into(s, init), l), k) == Take(Into(s, init), k)
  {
    var u := Into(s, init);
    IntoDescends(s, init);
    IntoBag(s, init);
    KthAbove(u, init, l, k);
    InsertBelow(u, l, k);
  }

  lemma KthAbove<T>(u: seq<Refined<T>>, block: seq<Refined<T>>, l: Refined<T>, k: nat)
    requires Descending(u) && multiset(block) <= multiset(u) && k <= |block| && |block| <= |u|
    requires forall i :: 0 <= i < |block| ==> block[i].q >= l.q
    ensures k > 0 ==> u[k - 1].q >= l.q
  {
    if k > 0 && u[k - 1].q < l.q {
      forall x: Refined<T> | x in multiset(block) ensures x.q > u[k - 1].q {
        assert x in block;
      }
      FewAbove(u, multiset(block), k - 1);
    }
  }

  /** The best `k` of the best `k` of each half, sorted stably, is the stable best `k`
      of the whole: the same list, ties included. */
  lemma StableHalves<T>(a: seq<Refined<T>>, b: seq<Refined<T>>, k: nat)
    ensures Best(Best(a, k) + Best(b, k), k) == Best(a + b, k)
  {
    var sa, sb := Sorted(a), Sorted(b);
    var ta, tb := Take(sa, k), Take(sb, k);
    SortedDescends(a);
    SortedDescends(b);
    TakeDescends(sa, k);
    TakeDescends(sb, k);
    BestIsTake(a, k);
    BestIsTake(b, k);
    BestIsTake(a + b, k);
    BestIsTake(ta + tb, k);
    SortedOfHalves(ta, tb);
    SortedOfSorted(ta);
    SortedOfHalves(a, b);
    IntoSorted(sa, b);
    TakeInto(sa, sb, k);
    IntoTake(ta, sb, k);
  }

  lemma BestIsTake<T>(s: seq<Refined<T>>, k: nat)
    ensures Best(s, k) == Take(Sorted(s), k)
  {
    SortedLength(s);
  }

  lemma SortedOfHalves<T>(a: seq<Refined<T>>, b: seq<Refined<T>>)
    ensures Sorted(a + b) == Into(Sorted(a), b)
  {
    SortedIsInto(a + b);
    IntoAppend([], a, b);
    SortedIsInto(a);
  }
}

/** Vocabulary shared by the models: optional values, machine integers, the two
    cores, and a few sequence facts that several proofs need. */
module Common {

  datatype Option<+T> = None | Some(value: T)

  // Machine integers, as ranges of the unbounded ones.
  type I16 = x: int | -0x8000 <= x <= 0x7fff
  type U16 = x: int | 0 <= x <= 0xffff
  type I32 = x: int | -0x8000_0000 <= x <= 0x7fff_ffff
  type U32 = x: int | 0 <= x <= 0xffff_ffff

  /** The dual-core runtimes pin one claim loop to each of these. */
  datatype Core = Main | Worker

  function Min(a: nat, b: nat): nat {
    if a < b then a else b
  }

  function Pow2(e: nat): (p: nat)
    ensures p > 0
  {
    if e == 0 then 1 else 2 * Pow2(e - 1)
  }

  /** The transform bin that mirrors bin `k` of `n`; bin 0 mirrors itself. */
  function Mirror(n: nat, k: nat): (m: nat)
    requires k < n
    ensures m < n && m == (if k == 0 then 0 else n - k)
  {
    (n - k) % n
  }

  /** A list of blocks, concatenated in order. */
  function Flatten<T>(xss: seq<seq<T>>): seq<T> {
    if xss == [] then [] else Flatten(xss[..|xss| - 1]) + xss[|xss| - 1]
  }

  lemma TakeSnoc<T>(s: seq<T>, i: nat)
    requires i < |s|
    ensures s[..i + 1] == s[..i] + [s[i]]
  {
  }

  lemma MultisetSnoc<T>(s: seq<T>, x: T)
    ensures multiset(s + [x]) == multiset(s) + multiset{x}
  {
  }

  lemma MultisetConcat<T>(a: seq<T>, b: seq<T>)
    ensures multiset(a + b) == multiset(a) + multiset(b)
  {
  }

  /** Where in a list a block is inserted does not matter to its multiset. */
  lemma MultisetInsert<T>(a: seq<T>, x: seq<T>, b: seq<T>)
    ensures multiset((a + x) + b) == multiset(a + b) + multiset(x)
    ensures multiset(a + (b + x)) == multiset(a + b) + multiset(x)
  {
  }

  /** Two lists that are concatenations of pairwise-permuted parts. */
  lemma MultisetMerge<T>(a: seq<T>, a': seq<T>, b: seq<T>, b': seq<T>)
    requires multiset(a) == multiset(a') && multiset(b) == multiset(b')
    ensures multiset(a + b) == multiset(a' + b')
  {
  }

  lemma MultisetInit<T>(a: seq<T>)
    requires a != []
    ensures multiset(a[..|a| - 1]) == multiset(a) - multiset{a[|a| - 1]}
  {
    assert a == a[..|a| - 1] + [a[|a| - 1]];
  }

  lemma MultisetSwap<T>(a: multiset<T>, x: multiset<T>, b: multiset<T>)
    ensures (a + x) + b == (a + b) + x
    ensures a + (b + x) == (a + b) + x
  {
  }
}

// Shared wrappers and small sequence facts used by every module of the model.

module Base {

  datatype Option<T> = None | Some(value: T)

  /** The outcome of an operation that the program aborts by raising or throwing. */
  datatype Result<T> = Ok(value: T) | Err(msg: string)

  /** Number of occurrences of `x` in `s`. */
  function Count<T(==)>(s: seq<T>, x: T): (n: nat)
    ensures n == multiset(s)[x]
    ensures n <= |s|
  {
    if |s| == 0 then 0
    else
      assert s == [s[0]] + s[1..];
      (if s[0] == x then 1 else 0) + Count(s[1..], x)
  }

  /** `p` lists every index below `n` exactly once. */
  predicate IsPermutation(p: seq<nat>, n: nat)
  {
    |p| == n
    && (forall i :: 0 <= i < n ==> p[i] < n)
    && (forall i, j :: 0 <= i < j < n ==> p[i] != p[j])
  }

  /** A prefix holds no element more often than the whole sequence. */
  lemma PrefixBag<T>(s: seq<T>, n: nat)
    requires n <= |s|
    ensures s == s[..n] + s[n..]
    ensures multiset(s[..n]) <= multiset(s)
    ensures forall x :: x in s[..n] ==> x in s
  {
    assert s == s[..n] + s[n..];
  }

  /** A sequence is what comes before index `k`, the element at `k`, and what follows. */
  lemma SplitAround<T>(s: seq<T>, k: nat)
    requires k < |s|
    ensures s == s[..k] + ([s[k]] + s[k + 1..])
  {
    assert s == s[..k] + s[k..];
    assert s[k..] == [s[k]] + s[k + 1..];
  }

  /** A suffix splits at any later index. */
  lemma SuffixSplit<T>(s: seq<T>, i: nat, j: nat)
    requires i <= j <= |s|
    ensures s[i..] == s[i..j] + s[j..]
  {
  }

  /** A slice splits at any index inside it. */
  lemma SliceConcat<T>(s: seq<T>, i: nat, j: nat, k: nat)
    requires i <= j <= k <= |s|
    ensures s[i..k] == s[i..j] + s[j..k]
  {
  }

  /** Taking the head of what is left onto what is done keeps the whole. */
  lemma AppendStep<T>(acc: seq<T>, x: T, rest: seq<T>, cur: seq<T>, all: seq<T>)
    requires acc + cur == all && cur == [x] + rest
    ensures (acc + [x]) + rest == all
  {
    assert (acc + [x]) + rest == acc + ([x] + rest);
  }

  function Fact(n: nat): (f: nat)
    ensures f >= 1
  {
    if n == 0 then 1 else n * Fact(n - 1)
  }

  function Sum(s: seq<int>): int
  {
    if |s| == 0 then 0 else s[0] + Sum(s[1..])
  }
}

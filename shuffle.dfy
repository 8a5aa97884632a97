// The in-place Fisher-Yates shuffle used by every source file (script.js,
// signals.js and red-zero-signal-test.js `shuffle`; CPython's
// `random.shuffle` runs the same loop). The random draw at step `i` is the
// explicit choice `pick(i)`, any index in 0..i.

module Shuffle {
  import opened Base

  /** `pick` is a legal source of draws: at step `i` it names an index in 0..i. */
  ghost predicate ValidPick(pick: nat -> nat)
  {
    forall i: nat :: pick(i) <= i
  }

  function Exchange<T>(s: seq<T>, i: nat, j: nat): (r: seq<T>)
    requires i < |s| && j < |s|
    ensures |r| == |s|
  {
    s[i := s[j]][j := s[i]]
  }

  /** An exchange only rearranges. */
  lemma ExchangePermutes<T>(s: seq<T>, i: nat, j: nat)
    requires i < |s| && j < |s|
    ensures multiset(Exchange(s, i, j)) == multiset(s)
  {
  }

  /** Steps `i`, `i - 1`, ..., 1 of the shuffle applied to `s`. */
  function Steps<T>(s: seq<T>, pick: nat -> nat, i: nat): (r: seq<T>)
    requires ValidPick(pick) && i < |s|
    ensures |r| == |s|
    decreases i
  {
    if i == 0 then s else Steps(Exchange(s, i, pick(i)), pick, i - 1)
  }

  /** The whole shuffle: the loop runs `i` from the last index down to 1. */
  function Shuffled<T>(s: seq<T>, pick: nat -> nat): (r: seq<T>)
    requires ValidPick(pick)
    ensures |r| == |s|
  {
    if |s| <= 1 then s else Steps(s, pick, |s| - 1)
  }

  /** `shuffle(array)`: exchange `a[i]` with `a[pick(i)]` for `i` from the top down to 1. */
  method ShuffleInPlace<T>(a: array<T>, pick: nat -> nat)
    requires ValidPick(pick)
    modifies a
    ensures a[..] == Shuffled(old(a[..]), pick)
    ensures multiset(a[..]) == multiset(old(a[..]))
  {
    if a.Length <= 1 {
      return;
    }
    var i := a.Length - 1;
    while i > 0
      invariant 0 <= i < a.Length
      invariant Steps(a[..], pick, i) == Shuffled(old(a[..]), pick)
      decreases i
    {
      var j := pick(i);
      ghost var before := a[..];
      a[i], a[j] := a[j], a[i];
      assert a[..] == Exchange(before, i, j);
      i := i - 1;
    }
    ShuffledIsPermutation(old(a[..]), pick);
  }

  /** The shuffle only rearranges: its result is a permutation of its input. */
  lemma {:induction false} StepsArePermutation<T>(s: seq<T>, pick: nat -> nat, i: nat)
    requires ValidPick(pick) && i < |s|
    ensures multiset(Steps(s, pick, i)) == multiset(s)
    decreases i
  {
    if i > 0 {
      ExchangePermutes(s, i, pick(i));
      StepsArePermutation(Exchange(s, i, pick(i)), pick, i - 1);
    }
  }

  lemma ShuffledIsPermutation<T>(s: seq<T>, pick: nat -> nat)
    requires ValidPick(pick)
    ensures multiset(Shuffled(s, pick)) == multiset(s)
  {
    if |s| > 1 {
      StepsArePermutation(s, pick, |s| - 1);
    }
  }

  function Map<A, B>(f: A -> B, s: seq<A>): (r: seq<B>)
    ensures |r| == |s|
    ensures forall k :: 0 <= k < |s| ==> r[k] == f(s[k])
  {
    seq(|s|, k requires 0 <= k < |s| => f(s[k]))
  }

  /**
    * The draws do not look at the entries: shuffling and then projecting each
    * entry equals projecting and then shuffling with the same draws.
    */
  lemma {:induction false} StepsCommuteWithMap<A, B>(f: A -> B, s: seq<A>, pick: nat -> nat, i: nat)
    requires ValidPick(pick) && i < |s|
    ensures Map(f, Steps(s, pick, i)) == Steps(Map(f, s), pick, i)
    decreases i
  {
    if i > 0 {
      var j := pick(i);
      assert Map(f, Exchange(s, i, j)) == Exchange(Map(f, s), i, j);
      StepsCommuteWithMap(f, Exchange(s, i, j), pick, i - 1);
    }
  }

  lemma ShuffledCommutesWithMap<A, B>(f: A -> B, s: seq<A>, pick: nat -> nat)
    requires ValidPick(pick)
    ensures Map(f, Shuffled(s, pick)) == Shuffled(Map(f, s), pick)
    ensures multiset(Map(f, Shuffled(s, pick))) == multiset(Map(f, s))
  {
    if |s| > 1 {
      StepsCommuteWithMap(f, s, pick, |s| - 1);
    }
    ShuffledIsPermutation(Map(f, s), pick);
  }

  /** No entry occurs twice. */
  predicate Distinct<T(==)>(s: seq<T>)
  {
    forall i, j :: 0 <= i < j < |s| ==> s[i] != s[j]
  }

  lemma {:induction false} StepsKeepDistinct<T>(s: seq<T>, pick: nat -> nat, i: nat)
    requires ValidPick(pick) && i < |s| && Distinct(s)
    ensures Distinct(Steps(s, pick, i))
    decreases i
  {
    if i > 0 {
      var j := pick(i);
      var e := Exchange(s, i, j);
      forall k1, k2 | 0 <= k1 < k2 < |e|
        ensures e[k1] != e[k2]
      {
        var m1 := if k1 == i then j else if k1 == j then i else k1;
        var m2 := if k2 == i then j else if k2 == j then i else k2;
        assert e[k1] == s[m1] && e[k2] == s[m2] && m1 != m2;
      }
      StepsKeepDistinct(e, pick, i - 1);
    }
  }

  /** Shuffling a list of distinct entries leaves them distinct. */
  lemma ShuffledKeepsDistinct<T>(s: seq<T>, pick: nat -> nat)
    requires ValidPick(pick) && Distinct(s)
    ensures Distinct(Shuffled(s, pick))
  {
    if |s| > 1 {
      StepsKeepDistinct(s, pick, |s| - 1);
    }
  }
}

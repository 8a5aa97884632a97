// All orderings of a small card list: signals.js / signals_ui.js
// `generatePermutations`, which lists them in the same order as Python's
// `itertools.permutations` used by go/waa.py `try_make_tail_sensitive`
// (first element by index, then the orderings of the rest).

module Perms {
  import opened Base

  /** `s` without its `i`-th entry. */
  function Without<T>(s: seq<T>, i: nat): (r: seq<T>)
    requires i < |s|
    ensures |r| == |s| - 1
    ensures multiset(r) == multiset(s) - multiset{s[i]}
  {
    assert s == s[..i] + [s[i]] + s[i + 1..];
    s[..i] + s[i + 1..]
  }

  function PrependAll<T>(x: T, ps: seq<seq<T>>): (r: seq<seq<T>>)
    ensures |r| == |ps|
    ensures forall k :: 0 <= k < |ps| ==> r[k] == [x] + ps[k]
  {
    seq(|ps|, k requires 0 <= k < |ps| => [x] + ps[k])
  }

  /** Every ordering of `s`: each entry in turn first, followed by every ordering of the others. */
  function Permutations<T>(s: seq<T>): seq<seq<T>>
    decreases |s|, 1, 0
  {
    if |s| <= 1 then [s] else PermsFrom(s, 0)
  }

  /** The orderings of `s` whose first entry is taken from index `i` or later. */
  function PermsFrom<T>(s: seq<T>, i: nat): seq<seq<T>>
    requires i <= |s|
    decreases |s|, 0, |s| - i
  {
    if i == |s| then []
    else PrependAll(s[i], Permutations(Without(s, i))) + PermsFrom(s, i + 1)
  }

  /** Every listed ordering is a permutation of the input. */
  lemma {:induction false} PermutationsSound<T>(s: seq<T>, p: seq<T>)
    requires p in Permutations(s)
    ensures multiset(p) == multiset(s)
    decreases |s|, 1, 0
  {
    if |s| > 1 {
      PermsFromSound(s, 0, p);
    }
  }

  lemma {:induction false} PermsFromSound<T>(s: seq<T>, i: nat, p: seq<T>)
    requires i <= |s| && p in PermsFrom(s, i)
    ensures multiset(p) == multiset(s)
    decreases |s|, 0, |s| - i
  {
    if i < |s| {
      var head := PrependAll(s[i], Permutations(Without(s, i)));
      if p in head {
        var k :| 0 <= k < |head| && head[k] == p;
        var q := Permutations(Without(s, i))[k];
        PermutationsSound(Without(s, i), q);
        assert p == [s[i]] + q;
        assert multiset(p) == multiset{s[i]} + multiset(q);
      } else {
        PermsFromSound(s, i + 1, p);
      }
    }
  }

  /** Every permutation of the input is listed: the search over them is exhaustive. */
  lemma {:induction false} PermutationsComplete<T>(s: seq<T>, t: seq<T>)
    requires multiset(t) == multiset(s)
    ensures t in Permutations(s)
    decreases |s|
  {
    assert |t| == |multiset(t)| == |s|;
    if |s| == 0 {
      assert t == s;
    } else if |s| == 1 {
      assert t[0] in multiset(s);
      assert t == [t[0]] && s == [s[0]];
    } else {
      assert t[0] in multiset(s);
      var i :| 0 <= i < |s| && s[i] == t[0];
      assert t == [t[0]] + t[1..];
      assert multiset(t[1..]) == multiset(t) - multiset{t[0]};
      PermutationsComplete(Without(s, i), t[1..]);
      PermsFromContains(s, 0, i, t[1..]);
    }
  }

  lemma {:induction false} PermsFromContains<T>(s: seq<T>, j: nat, i: nat, q: seq<T>)
    requires j <= i < |s| && q in Permutations(Without(s, i))
    ensures [s[i]] + q in PermsFrom(s, j)
    decreases i - j
  {
    var ps := Permutations(Without(s, i));
    var k :| 0 <= k < |ps| && ps[k] == q;
    if j == i {
      assert PrependAll(s[i], ps)[k] == [s[i]] + q;
    } else {
      PermsFromContains(s, j + 1, i, q);
    }
  }

  /** There are exactly n! orderings, one per arrangement of the n input positions. */
  lemma {:induction false} PermutationsCount<T>(s: seq<T>)
    ensures |Permutations(s)| == Fact(|s|)
    decreases |s|, 1, 0
  {
    if |s| > 1 {
      PermsFromCount(s, 0);
      assert |Permutations(s)| == |PermsFrom(s, 0)|;
      assert Fact(|s|) == |s| * Fact(|s| - 1);
    }
  }

  lemma {:induction false} PermsFromCount<T>(s: seq<T>, i: nat)
    requires 1 <= |s| && i <= |s|
    ensures |PermsFrom(s, i)| == (|s| - i) * Fact(|s| - 1)
    decreases |s|, 0, |s| - i
  {
    if i < |s| {
      var rest := Permutations(Without(s, i));
      PermutationsCount(Without(s, i));
      PermsFromCount(s, i + 1);
      assert |PermsFrom(s, i)| == |rest| + |PermsFrom(s, i + 1)|;
      MulStep(Fact(|s| - 1), |s| - i);
    }
  }

  lemma MulStep(f: nat, n: nat)
    requires n >= 1
    ensures f + (n - 1) * f == n * f
  {
  }
}

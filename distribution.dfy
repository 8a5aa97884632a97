// go/waa.py `enforce_suit_distribution` and its fallback
// `_ensure_signal_presence`: the signal suit is gathered into the views of
// the S index list (the views followed by a Banker win), by exchanging suits
// with same-rank cards outside S.

module Distribution {
  import opened Base
  import opened Cards
  import opened Suits

  // ---- sums over views ----

  /** `xs[0] + ... + xs[n - 1]`. */
  function SumTo(xs: seq<int>, n: nat): int
    requires n <= |xs|
  {
    if n == 0 then 0 else SumTo(xs, n - 1) + xs[n - 1]
  }

  /** The sum of the entries below `n` whose index is listed in `S`. */
  function WhereSum(xs: seq<int>, S: seq<nat>, n: nat): int
    requires n <= |xs|
  {
    if n == 0 then 0 else WhereSum(xs, S, n - 1) + (if n - 1 in S then xs[n - 1] else 0)
  }

  /** The sum of the entries below `n` whose index is not listed in `S`. */
  function OutSum(xs: seq<int>, S: seq<nat>, n: nat): int
    requires n <= |xs|
  {
    if n == 0 then 0 else OutSum(xs, S, n - 1) + (if n - 1 in S then 0 else xs[n - 1])
  }

  /** The sum of the listed entries, in list order: Python's `sum(xs[i] for i in S)`. */
  function SumOver(xs: seq<int>, S: seq<nat>): int
    requires forall a :: 0 <= a < |S| ==> S[a] < |xs|
  {
    if |S| == 0 then 0 else SumOver(xs, S[..|S| - 1]) + xs[S[|S| - 1]]
  }

  predicate Increasing(S: seq<nat>)
  {
    forall a, b :: 0 <= a < b < |S| ==> S[a] < S[b]
  }

  lemma {:induction false} SplitSum(xs: seq<int>, S: seq<nat>, n: nat)
    requires n <= |xs|
    ensures SumTo(xs, n) == WhereSum(xs, S, n) + OutSum(xs, S, n)
  {
    if n > 0 {
      SplitSum(xs, S, n - 1);
    }
  }

  /** Over an increasing index list, summing in list order is summing the listed indices. */
  lemma {:induction false} SumOverIsWhere(xs: seq<int>, S: seq<nat>, n: nat)
    requires n <= |xs| && Increasing(S) && forall a :: 0 <= a < |S| ==> S[a] < n
    ensures SumOver(xs, S) == WhereSum(xs, S, n)
    decreases n
  {
    if n > 0 {
      if |S| > 0 && S[|S| - 1] == n - 1 {
        var S' := S[..|S| - 1];
        SumOverIsWhere(xs, S', n - 1);
        WhereSumAgree(xs, S', S, n - 1);
      } else {
        forall a | 0 <= a < |S| ensures S[a] != n - 1 {
          if a < |S| - 1 {
            assert S[a] < S[|S| - 1];
          }
        }
        SumOverIsWhere(xs, S, n - 1);
      }
    }
  }

  /** Two index lists that agree below `n` select the same sum below `n`. */
  lemma {:induction false} WhereSumAgree(xs: seq<int>, S: seq<nat>, T: seq<nat>, n: nat)
    requires n <= |xs|
    requires forall k :: 0 <= k < n ==> (k in S <==> k in T)
    ensures WhereSum(xs, S, n) == WhereSum(xs, T, n)
  {
    if n > 0 {
      WhereSumAgree(xs, S, T, n - 1);
    }
  }

  /** Raising one listed entry by one raises the selected sum by one. */
  lemma {:induction false} WhereSumBump(xs: seq<int>, S: seq<nat>, n: nat, i: nat)
    requires n <= |xs| && i < |xs|
    ensures WhereSum(xs[i := xs[i] + 1], S, n) == WhereSum(xs, S, n) + (if i < n && i in S then 1 else 0)
  {
    if n > 0 {
      WhereSumBump(xs, S, n - 1, i);
    }
  }

  /** Entry-wise no larger on the listed indices: no larger sum. */
  lemma {:induction false} WhereSumMono(xs: seq<int>, ys: seq<int>, S: seq<nat>, n: nat)
    requires n <= |xs| && n <= |ys|
    requires forall k :: 0 <= k < n && k in S ==> xs[k] <= ys[k]
    ensures WhereSum(xs, S, n) <= WhereSum(ys, S, n)
  {
    if n > 0 {
      WhereSumMono(xs, ys, S, n - 1);
    }
  }

  lemma {:induction false} OutSumZero(xs: seq<int>, S: seq<nat>, n: nat)
    requires n <= |xs|
    requires forall k :: 0 <= k < n ==> xs[k] >= 0
    ensures OutSum(xs, S, n) >= 0
    ensures OutSum(xs, S, n) == 0 <==> forall k :: 0 <= k < n && k !in S ==> xs[k] == 0
  {
    if n > 0 {
      OutSumZero(xs, S, n - 1);
    }
  }

  // ---- per-view counts ----

  /** The signal-suit count of every view. */
  function Counts(vs: Views, s: Suit): (c: seq<int>)
    ensures |c| == |vs|
    ensures forall k :: 0 <= k < |vs| ==> c[k] == CountSuit(vs[k], s)
  {
    seq(|vs|, k requires 0 <= k < |vs| => CountSuit(vs[k], s))
  }

  /** The length of every view. */
  function Lens(vs: Views): (c: seq<int>)
    ensures |c| == |vs|
    ensures forall k :: 0 <= k < |vs| ==> c[k] == |vs[k]|
  {
    seq(|vs|, k requires 0 <= k < |vs| => |vs[k]|)
  }

  lemma CountSuitAppend(a: seq<Card>, b: seq<Card>, s: Suit)
    ensures CountSuit(a + b, s) == CountSuit(a, s) + CountSuit(b, s)
  {
    assert SuitsOf(a + b) == SuitsOf(a) + SuitsOf(b);
  }

  /** The shoe's count of a suit is the sum of the views' counts. */
  lemma {:induction false} SuitTotalIsSum(vs: Views, s: Suit, c: seq<int>, n: nat)
    requires n <= |vs| == |c|
    requires forall k :: 0 <= k < |vs| ==> c[k] == CountSuit(vs[k], s)
    ensures SuitTotal(vs[..n], s) == SumTo(c, n)
  {
    if n > 0 {
      SuitTotalIsSum(vs, s, c, n - 1);
      var pre := vs[..n];
      SuitTotalStep(pre, s);
      assert pre[..n - 1] == vs[..n - 1];
      assert pre[n - 1] == vs[n - 1];
    }
  }

  lemma SuitTotalStep(vs: Views, s: Suit)
    requires |vs| > 0
    ensures SuitTotal(vs, s) == SuitTotal(vs[..|vs| - 1], s) + CountSuit(vs[|vs| - 1], s)
  {
    var init, last := vs[..|vs| - 1], vs[|vs| - 1];
    assert vs == init + [last];
    assert [last][1..] == [];
    assert Concat([last]) == last;
    ConcatAppend(init, [last]);
    CountSuitAppend(Concat(init), last, s);
  }

  lemma SuitTotalSplit(vs: Views, s: Suit, S: seq<nat>)
    ensures SuitTotal(vs, s) == WhereSum(Counts(vs, s), S, |vs|) + OutSum(Counts(vs, s), S, |vs|)
    ensures OutSum(Counts(vs, s), S, |vs|) >= 0
    ensures OutSum(Counts(vs, s), S, |vs|) == 0 <==> forall k :: 0 <= k < |vs| && k !in S ==> CountSuit(vs[k], s) == 0
  {
    SuitTotalIsSum(vs, s, Counts(vs, s), |vs|);
    assert vs[..|vs|] == vs;
    SplitSum(Counts(vs, s), S, |vs|);
    OutSumZero(Counts(vs, s), S, |vs|);
  }

  /** Counting in one changed entry of a view. */
  lemma CountSuitUpdate(v: seq<Card>, j: nat, c: Card, s: Suit)
    requires j < |v|
    ensures CountSuit(v[j := c], s) == CountSuit(v, s) - (if v[j].suit == s then 1 else 0) + (if c.suit == s then 1 else 0)
  {
    assert SuitsOf(v[j := c]) == SuitsOf(v)[j := c.suit];
    MultisetUpdate(SuitsOf(v), j, c.suit);
  }

  lemma {:induction false} CountSuitZero(v: seq<Card>, s: Suit)
    ensures CountSuit(v, s) == 0 <==> forall j :: 0 <= j < |v| ==> v[j].suit != s
  {
    if CountSuit(v, s) != 0 {
      assert s in multiset(SuitsOf(v));
      var j :| 0 <= j < |v| && SuitsOf(v)[j] == s;
    }
  }

  // ---- the targets ----

  /** Each entry's key is at least the next one's. */
  predicate Desc(r: seq<nat>, key: seq<int>)
    requires forall a :: 0 <= a < |r| ==> r[a] < |key|
  {
    forall a :: 0 <= a < |r| - 1 ==> key[r[a]] >= key[r[a + 1]]
  }

  lemma {:induction false} DescAll(r: seq<nat>, key: seq<int>)
    requires forall a :: 0 <= a < |r| ==> r[a] < |key|
    requires Desc(r, key)
    ensures forall a, b :: 0 <= a < b < |r| ==> key[r[a]] >= key[r[b]]
  {
    if |r| > 1 {
      DescAll(r[1..], key);
      forall b | 1 < b < |r| ensures key[r[0]] >= key[r[b]] {
        assert r[1..][0] == r[1] && r[1..][b - 1] == r[b];
      }
    }
  }

  /** `sorted(S, key=..., reverse=True)`: a stable sort by descending key. */
  function SortDesc(S: seq<nat>, key: seq<int>): (r: seq<nat>)
    requires forall a :: 0 <= a < |S| ==> S[a] < |key|
    ensures multiset(r) == multiset(S)
    ensures forall a :: 0 <= a < |r| ==> r[a] < |key|
    ensures Desc(r, key)
  {
    if |S| == 0 then []
    else
      assert S == S[..|S| - 1] + [S[|S| - 1]];
      InsertDescBag(SortDesc(S[..|S| - 1], key), S[|S| - 1], key);
      InsertDesc(SortDesc(S[..|S| - 1], key), S[|S| - 1], key)
  }

  /** Insert `x` after every entry whose key is at least its own. */
  function InsertDesc(r: seq<nat>, x: nat, key: seq<int>): (out: seq<nat>)
    requires x < |key| && forall a :: 0 <= a < |r| ==> r[a] < |key|
    requires Desc(r, key)
    ensures |out| == |r| + 1
    ensures forall a :: 0 <= a < |out| ==> out[a] < |key|
    ensures out[0] == if |r| > 0 && key[r[0]] >= key[x] then r[0] else x
    ensures Desc(out, key)
  {
    if |r| == 0 then [x]
    else if key[r[0]] >= key[x] then
      assert r == [r[0]] + r[1..];
      [r[0]] + InsertDesc(r[1..], x, key)
    else [x] + r
  }

  /** Inserting adds the one entry. */
  lemma {:induction false} InsertDescBag(r: seq<nat>, x: nat, key: seq<int>)
    requires x < |key| && forall a :: 0 <= a < |r| ==> r[a] < |key|
    requires Desc(r, key)
    ensures multiset(InsertDesc(r, x, key)) == multiset(r) + multiset{x}
  {
    if |r| > 0 && key[r[0]] >= key[x] {
      assert r == [r[0]] + r[1..];
      InsertDescBag(r[1..], x, key);
    }
  }

  /** The room left in the listed views: their lengths minus their targets. */
  function Room(vs: Views, target: seq<int>, S: seq<nat>): int
    requires |target| == |vs|
  {
    WhereSum(Lens(vs), S, |vs|) - WhereSum(target, S, |vs|)
  }

  /** No room left in any listed view means no room left in total. */
  lemma NoRoom(vs: Views, target: seq<int>, S: seq<nat>)
    requires |target| == |vs|
    requires forall k :: 0 <= k < |vs| && k in S ==> target[k] >= |vs[k]|
    ensures Room(vs, target, S) <= 0
  {
    WhereSumMono(Lens(vs), target, S, |vs|);
  }

  /** How many steps round a cycle of `m` places lead from `ptr` to `goal`. */
  function Dist(goal: nat, ptr: nat, m: nat): int
  {
    if goal >= ptr then goal - ptr else goal + m - ptr
  }

  /** The targets start from the signal count of each listed view and nothing elsewhere. */
  function InitialTargets(vs: Views, S: seq<nat>, s: Suit): (t: seq<int>)
    ensures |t| == |vs|
    ensures forall k :: 0 <= k < |vs| ==> t[k] == if k in S then CountSuit(vs[k], s) else 0
  {
    seq(|vs|, k requires 0 <= k < |vs| => if k in S then CountSuit(vs[k], s) else 0)
  }

  /**
    * Steps 4 and 5 of `enforce_suit_distribution`: every listed view's target
    * starts at its signal count; the signal cards outside the list are then
    * handed out one at a time round the views sorted by room, skipping full
    * ones. The room check before (capacity at least the signal total) makes
    * this end with every signal card assigned.
    */
  method Targets(vs: Views, S: seq<nat>, s: Suit) returns (target: seq<int>)
    requires |S| > 0 && Increasing(S) && forall a :: 0 <= a < |S| ==> S[a] < |vs|
    requires SumOver(Lens(vs), S) >= SuitTotal(vs, s)
    ensures |target| == |vs|
    ensures forall k :: 0 <= k < |vs| && k !in S ==> target[k] == 0
    ensures forall k :: 0 <= k < |vs| && k in S ==> CountSuit(vs[k], s) <= target[k] <= |vs[k]|
    ensures WhereSum(target, S, |vs|) == SuitTotal(vs, s)
  {
    var n := |vs|;
    target := InitialTargets(vs, S, s);
    InitialTargetsSums(vs, S, s, target);
    var remain := SuitTotal(vs, s) - SumTo(target, n);
    if remain <= 0 {
      return;
    }
    var key := seq(n, k requires 0 <= k < n => |vs[k]| - target[k]);
    var order := SortDesc(S, key);
    target := HandOut(vs, S, order, target, remain);
  }

  /** The initial targets add up to the listed signal cards, and leave room for the others. */
  lemma InitialTargetsSums(vs: Views, S: seq<nat>, s: Suit, target: seq<int>)
    requires Increasing(S) && forall a :: 0 <= a < |S| ==> S[a] < |vs|
    requires SumOver(Lens(vs), S) >= SuitTotal(vs, s)
    requires target == InitialTargets(vs, S, s)
    ensures SumTo(target, |vs|) == WhereSum(target, S, |vs|) <= SuitTotal(vs, s)
    ensures Room(vs, target, S) >= SuitTotal(vs, s) - SumTo(target, |vs|)
  {
    var n, lens, cnt := |vs|, Lens(vs), Counts(vs, s);
    var w := WhereSum(target, S, n);
    assert SumOver(lens, S) == WhereSum(lens, S, n) by {
      SumOverIsWhere(lens, S, n);
    }
    assert SuitTotal(vs, s) >= WhereSum(cnt, S, n) by {
      SuitTotalSplit(vs, s, S);
    }
    assert w == WhereSum(cnt, S, n) by {
      WhereSumAgreeCounts(vs, s, S, target);
    }
    assert OutSum(target, S, n) == 0 by {
      OutSumZero(target, S, n);
    }
    assert SumTo(target, n) == w + OutSum(target, S, n) by {
      SplitSum(target, S, n);
    }
  }

  /** Some place of the sorted list names a view whose target is below its length. */
  predicate HasRoom(vs: Views, target: seq<int>, order: seq<nat>, g: nat)
    requires |target| == |vs|
  {
    g < |order| && order[g] < |vs| && target[order[g]] < |vs[order[g]]|
  }

  /**
    * The round-robin of step 5: walking cyclically through `order`, each view
    * whose target is below its length takes one more, until `remain` is used
    * up. It ends because the listed views have room for all of `remain`.
    */
  method HandOut(vs: Views, S: seq<nat>, order: seq<nat>, target0: seq<int>, remain0: int) returns (target: seq<int>)
    requires |target0| == |vs| && multiset(order) == multiset(S) && |S| > 0
    requires forall a :: 0 <= a < |S| ==> S[a] < |vs|
    requires forall k :: 0 <= k < |vs| && k in S ==> target0[k] <= |vs[k]|
    requires Room(vs, target0, S) >= remain0 > 0
    ensures |target| == |vs|
    ensures forall k :: 0 <= k < |vs| && k !in S ==> target[k] == target0[k]
    ensures forall k :: 0 <= k < |vs| && k in S ==> target0[k] <= target[k] <= |vs[k]|
    ensures WhereSum(target, S, |vs|) == WhereSum(target0, S, |vs|) + remain0
  {
    var n := |vs|;
    assert |order| == |S| by {
      assert |multiset(order)| == |multiset(S)|;
    }
    var m := |order|;
    target := target0;
    var remain := remain0;
    var ptr := 0;
    ghost var goal := NonFull(vs, target, S, order, remain);
    while remain > 0
      invariant |target| == n && 0 <= ptr < m
      invariant forall k :: 0 <= k < n && k !in S ==> target[k] == target0[k]
      invariant forall k :: 0 <= k < n && k in S ==> target0[k] <= target[k] <= |vs[k]|
      invariant WhereSum(target, S, n) + remain == WhereSum(target0, S, n) + remain0
      invariant Room(vs, target, S) >= remain
      invariant remain > 0 ==> HasRoom(vs, target, order, goal)
      decreases remain, Dist(goal, ptr, m)
    {
      var idx := order[ptr];
      assert idx in S && idx < n by {
        assert idx in multiset(order);
      }
      if target[idx] < |vs[idx]| {
        WhereSumBump(target, S, n, idx);
        target := target[idx := target[idx] + 1];
        remain := remain - 1;
        if remain > 0 {
          goal := NonFull(vs, target, S, order, remain);
        }
      }
      // The source's `(ptr + 1) % len(order)`.
      ptr := if ptr + 1 < m then ptr + 1 else 0;
    }
  }

  lemma WhereSumAgreeCounts(vs: Views, s: Suit, S: seq<nat>, target: seq<int>)
    requires |target| == |vs|
    requires forall k :: 0 <= k < |vs| ==> target[k] == if k in S then CountSuit(vs[k], s) else 0
    ensures WhereSum(target, S, |vs|) == WhereSum(Counts(vs, s), S, |vs|)
  {
    WhereSumMono(target, Counts(vs, s), S, |vs|);
    WhereSumMono(Counts(vs, s), target, S, |vs|);
  }

  /** While room is left, some place of the sorted list names a view with room. */
  lemma NonFull(vs: Views, target: seq<int>, S: seq<nat>, order: seq<nat>, remain: int) returns (g: nat)
    requires |target| == |vs| && multiset(order) == multiset(S)
    requires forall a :: 0 <= a < |S| ==> S[a] < |vs|
    requires Room(vs, target, S) >= remain > 0
    ensures HasRoom(vs, target, order, g)
  {
    if forall p :: 0 <= p < |order| ==> order[p] < |vs| && target[order[p]] >= |vs[order[p]]| {
      forall k | 0 <= k < |vs| && k in S
        ensures target[k] >= |vs[k]|
      {
        assert k in multiset(order);
        var p :| 0 <= p < |order| && order[p] == k;
      }
      NoRoom(vs, target, S);
      assert false;
    }
    g :| 0 <= g < |order| && !(order[g] < |vs| && target[order[g]] >= |vs[order[g]]|);
    assert order[g] in multiset(S);
  }

  // ---- the exchanges ----

  /**
    * The signal cards at or after slot (k, j) outside the listed views, in
    * shoe order. The source builds this donor list once and pops each donor
    * it uses; since a used donor loses the signal suit and nothing else
    * outside the list changes, the popped list is always this one.
    */
  function DonorsFrom(vs: Views, S: seq<nat>, sig: Suit, k: nat, j: nat): (ds: seq<Slot>)
    ensures forall q :: q in ds <==> IsSlot(vs, q) && (q.k > k || (q.k == k && q.j >= j))
                                     && q.k !in S && CardAt(vs, q).suit == sig
    ensures forall a, b :: 0 <= a < b < |ds| ==> Before(ds[a], ds[b])
    decreases |vs| - k, if k < |vs| then |vs[k]| - j else 0
  {
    if k >= |vs| then []
    else if j >= |vs[k]| then DonorsFrom(vs, S, sig, k + 1, 0)
    else if k !in S && vs[k][j].suit == sig then [Slot(k, j)] + DonorsFrom(vs, S, sig, k, j + 1)
    else DonorsFrom(vs, S, sig, k, j + 1)
  }

  function Donors(vs: Views, S: seq<nat>, sig: Suit): (ds: seq<Slot>)
    ensures forall q :: q in ds <==> IsSlot(vs, q) && q.k !in S && CardAt(vs, q).suit == sig
    ensures forall a, b :: 0 <= a < b < |ds| ==> Before(ds[a], ds[b])
  {
    DonorsFrom(vs, S, sig, 0, 0)
  }

  /** The positions at or after `j` of the cards of `v` without the signal suit: the receiver list. */
  function Receivers(v: seq<Card>, sig: Suit, j: nat): (rs: seq<nat>)
    ensures forall x :: x in rs <==> j <= x < |v| && v[x].suit != sig
    ensures forall a :: 0 <= a < |rs| ==> j <= rs[a] < |v| && v[rs[a]].suit != sig
    ensures forall a, b :: 0 <= a < b < |rs| ==> rs[a] < rs[b]
    decreases |v| - j
  {
    if j >= |v| then []
    else if v[j].suit != sig then [j] + Receivers(v, sig, j + 1)
    else Receivers(v, sig, j + 1)
  }

  /** Receiver `x` of view `i` and donor `d` make a same-rank pair. */
  predicate Pairs(vs: Views, i: nat, x: nat, d: Slot)
    requires i < |vs| && x < |vs[i]| && IsSlot(vs, d)
  {
    vs[i][x].rank == CardAt(vs, d).rank
  }

  /** The search of the source: the first receiver that has a same-rank donor, with its first such donor. */
  method FindPair(vs: Views, i: nat, rs: seq<nat>, ds: seq<Slot>) returns (p: Option<(nat, nat)>)
    requires i < |vs| && (forall a :: 0 <= a < |rs| ==> rs[a] < |vs[i]|)
    requires forall b :: 0 <= b < |ds| ==> IsSlot(vs, ds[b])
    ensures p.Some? ==> p.value.0 < |rs| && p.value.1 < |ds| && Pairs(vs, i, rs[p.value.0], ds[p.value.1])
    ensures p.Some? ==> forall a, b :: 0 <= a < p.value.0 && 0 <= b < |ds| ==> !Pairs(vs, i, rs[a], ds[b])
    ensures p.Some? ==> forall b :: 0 <= b < p.value.1 ==> !Pairs(vs, i, rs[p.value.0], ds[b])
    ensures p.None? ==> forall x, d :: x in rs && d in ds && x < |vs[i]| && IsSlot(vs, d) ==> !Pairs(vs, i, x, d)
  {
    for a := 0 to |rs|
      invariant forall a', b :: 0 <= a' < a && 0 <= b < |ds| ==> !Pairs(vs, i, rs[a'], ds[b])
    {
      for b := 0 to |ds|
        invariant forall b' :: 0 <= b' < b ==> !Pairs(vs, i, rs[a], ds[b'])
      {
        if vs[i][rs[a]].rank == CardAt(vs, ds[b]).rank {
          return Some((a, b));
        }
      }
    }
    forall x, d | x in rs && d in ds && x < |vs[i]| && IsSlot(vs, d)
      ensures !Pairs(vs, i, x, d)
    {
      var a :| 0 <= a < |rs| && rs[a] == x;
      var b :| 0 <= b < |ds| && ds[b] == d;
    }
    return None;
  }

  datatype Transfer = Moved | NoResources | NoPair

  /** A receiver in view `i` and a donor outside the list of the same rank. */
  predicate Exchangeable(vs: Views, S: seq<nat>, sig: Suit, i: nat, a: Slot, b: Slot)
  {
    IsSlot(vs, a) && IsSlot(vs, b) && a.k == i && CardAt(vs, a).suit != sig
    && b.k !in S && CardAt(vs, b).suit == sig && CardAt(vs, a).rank == CardAt(vs, b).rank
  }

  /** After the exchange only view `i` gains the signal suit, by one card. */
  lemma ExchangeEffect(vs: Views, S: seq<nat>, sig: Suit, i: nat, a: Slot, b: Slot)
    requires i in S && Exchangeable(vs, S, sig, i, a, b)
    ensures var r := SwapSuits(vs, a, b);
      && CountSuit(r[i], sig) == CountSuit(vs[i], sig) + 1
      && (forall k :: 0 <= k < |vs| && k in S && k != i ==> r[k] == vs[k])
      && (forall q :: IsSlot(vs, q) && q.k !in S && CardAt(r, q).suit == sig ==> CardAt(vs, q).suit == sig)
  {
    var r := SwapSuits(vs, a, b);
    var v := vs[i][a.j := vs[i][a.j].(suit := sig)];
    assert r[i] == v by {
      forall x | 0 <= x < |v| ensures r[i][x] == v[x] {
        assert IsSlot(vs, Slot(i, x));
      }
    }
    CountSuitUpdate(vs[i], a.j, vs[i][a.j].(suit := sig), sig);
    forall k | 0 <= k < |vs| && k in S && k != i
      ensures r[k] == vs[k]
    {
      forall x | 0 <= x < |vs[k]| ensures r[k][x] == vs[k][x] {
        assert IsSlot(vs, Slot(k, x));
      }
    }
  }

  /**
    * One pass of the inner loop of step 6: no exchange when there is no donor
    * or no receiver left, or no same-rank pair among them; otherwise the
    * first receiver of view `i` with a same-rank donor takes the signal suit
    * from the first such donor.
    */
  method TransferOne(cur: Views, S: seq<nat>, sig: Suit, i: nat) returns (out: Views, st: Transfer)
    requires i < |cur| && i in S
    ensures SameButSuits(cur, out) && Conserved(cur, out)
    ensures st != Moved ==> out == cur
    ensures st == NoResources <==> |Donors(cur, S, sig)| == 0 || |Receivers(cur[i], sig, 0)| == 0
    ensures st == NoPair ==> forall a, b :: !Exchangeable(cur, S, sig, i, a, b)
    ensures st == Moved ==> exists a, b :: Exchangeable(cur, S, sig, i, a, b) && out == SwapSuits(cur, a, b)
    ensures st == Moved ==> CountSuit(out[i], sig) == CountSuit(cur[i], sig) + 1
    ensures forall k :: 0 <= k < |cur| && k in S && k != i ==> out[k] == cur[k]
    ensures forall q :: IsSlot(cur, q) && q.k !in S && CardAt(out, q).suit == sig ==> CardAt(cur, q).suit == sig
  {
    var ds := Donors(cur, S, sig);
    var rs := Receivers(cur[i], sig, 0);
    if |ds| == 0 || |rs| == 0 {
      return cur, NoResources;
    }
    assert forall b :: 0 <= b < |ds| ==> ds[b] in ds;
    var p := FindPair(cur, i, rs, ds);
    if p.None? {
      forall a, b ensures !Exchangeable(cur, S, sig, i, a, b) {
        assert Exchangeable(cur, S, sig, i, a, b) ==> a.j in rs && b in ds;
      }
      return cur, NoPair;
    }
    var a, b := Slot(i, rs[p.value.0]), ds[p.value.1];
    assert rs[p.value.0] in rs && b in ds;
    assert Exchangeable(cur, S, sig, i, a, b);
    ExchangeEffect(cur, S, sig, i, a, b);
    SwapSuitsKeepsCounts(cur, a, b);
    return SwapSuits(cur, a, b), Moved;
  }

  /** Only some cards outside the list may lose the signal suit; none gains it. */
  ghost predicate OutsideShrinks(vs: Views, out: Views, S: seq<nat>, sig: Suit)
    requires SameShape(vs, out)
  {
    forall q :: IsSlot(vs, q) && q.k !in S && CardAt(out, q).suit == sig ==> CardAt(vs, q).suit == sig
  }

  /** No listed view loses signal cards. */
  predicate InsideGrows(vs: Views, out: Views, S: seq<nat>, sig: Suit)
    requires |vs| == |out|
  {
    forall k :: 0 <= k < |vs| && k in S ==> CountSuit(vs[k], sig) <= CountSuit(out[k], sig)
  }

  /**
    * The inner loop of step 6 for the listed view `i`: `need` exchanges into
    * it, stopping at the first that cannot be made.
    */
  method FillView(cur: Views, S: seq<nat>, sig: Suit, i: nat, need: int) returns (out: Views, st: Transfer)
    requires i < |cur| && i in S
    ensures SameButSuits(cur, out) && Conserved(cur, out)
    ensures CountSuit(out[i], sig) >= CountSuit(cur[i], sig)
    ensures st == Moved ==> CountSuit(out[i], sig) == CountSuit(cur[i], sig) + (if need > 0 then need else 0)
    ensures forall k :: 0 <= k < |cur| && k in S && k != i ==> out[k] == cur[k]
    ensures OutsideShrinks(cur, out, S, sig)
  {
    out := cur;
    if need <= 0 {
      return out, Moved;
    }
    for t := 0 to need
      invariant SameButSuits(cur, out) && Conserved(cur, out)
      invariant CountSuit(out[i], sig) == CountSuit(cur[i], sig) + t
      invariant forall k :: 0 <= k < |cur| && k in S && k != i ==> out[k] == cur[k]
      invariant OutsideShrinks(cur, out, S, sig)
    {
      var next, st1 := TransferOne(out, S, sig, i);
      if st1 != Moved {
        return out, st1;
      }
      SameButSuitsTrans(cur, out, next);
      assert OutsideShrinks(cur, next, S, sig) by {
        forall q | IsSlot(cur, q) && q.k !in S && CardAt(next, q).suit == sig
          ensures CardAt(cur, q).suit == sig
        {
          assert IsSlot(out, q);
        }
      }
      out := next;
    }
    st := Moved;
  }

  /** Step 6: each listed view in turn is filled up to its target. */
  method ExecSwaps(vs: Views, S: seq<nat>, sig: Suit, target: seq<int>) returns (out: Views, st: Transfer)
    requires Increasing(S) && forall a :: 0 <= a < |S| ==> S[a] < |vs|
    requires |target| == |vs|
    requires forall k :: 0 <= k < |vs| && k in S ==> CountSuit(vs[k], sig) <= target[k]
    ensures SameButSuits(vs, out) && Conserved(vs, out)
    ensures InsideGrows(vs, out, S, sig) && OutsideShrinks(vs, out, S, sig)
    ensures st == Moved ==> forall k :: 0 <= k < |vs| && k in S ==> CountSuit(out[k], sig) == target[k]
  {
    out := vs;
    for a := 0 to |S|
      invariant SameButSuits(vs, out) && Conserved(vs, out)
      invariant InsideGrows(vs, out, S, sig) && OutsideShrinks(vs, out, S, sig)
      invariant forall a' :: 0 <= a' < a ==> CountSuit(out[S[a']], sig) == target[S[a']]
      invariant forall a' :: a <= a' < |S| ==> out[S[a']] == vs[S[a']]
    {
      var i := S[a];
      var need := target[i] - CountSuit(out[i], sig);
      var next, st1 := FillView(out, S, sig, i, need);
      SameButSuitsTrans(vs, out, next);
      assert InsideGrows(vs, next, S, sig) && OutsideShrinks(vs, next, S, sig) by {
        forall q | IsSlot(vs, q) && q.k !in S && CardAt(next, q).suit == sig
          ensures CardAt(vs, q).suit == sig
        {
          assert IsSlot(out, q);
        }
      }
      forall a' | 0 <= a' < |S| && a' != a ensures next[S[a']] == out[S[a']] {
        assert S[a'] != i by {
          assert a' < a ==> S[a'] < S[a];
          assert a' > a ==> S[a] < S[a'];
        }
      }
      out := next;
      if st1 != Moved {
        return out, st1;
      }
    }
    forall k | 0 <= k < |vs| && k in S
      ensures CountSuit(out[k], sig) == target[k]
    {
      var a :| 0 <= a < |S| && S[a] == k;
    }
    st := Moved;
  }

  /** The signal cards of the listed views: what the distribution locks. */
  function LockedSignal(vs: Views, S: seq<nat>, sig: Suit): (locked: set<Slot>)
    ensures forall q :: q in locked <==> IsSlot(vs, q) && q.k in S && CardAt(vs, q).suit == sig
  {
    set k, j | 0 <= k < |vs| && 0 <= j < |vs[k]| && k in S && vs[k][j].suit == sig :: Slot(k, j)
  }

  const CapacityShort := "S_idx capacity below the signal suit total"
  const SwapResourcesShort := "no donor or no receiver left for the signal suit"
  const NoSameRankPair := "no same-rank pair for a signal suit exchange"
  const LeftoverDonors := "signal suit left outside S_idx"
  const PresenceShort := "no signal suit donor or receiver for S_idx coverage"
  const PresenceNoPair := "no same-rank pair for S_idx coverage"

  function TransferError(st: Transfer): string
  {
    if st == NoResources then SwapResourcesShort else NoSameRankPair
  }

  /**
    * `enforce_suit_distribution`: with a non-empty list whose views can hold
    * every signal card, each listed view is given a target and filled to it
    * from the signal cards elsewhere. On success no signal card is left
    * outside the listed views (the closing assertion of the source always
    * holds), each listed view has between its former signal count and its
    * length of them, and exactly those cards are locked. The views are
    * returned on failure too: the caller goes on with them.
    */
  method EnforceSuitDistribution(vs: Views, sig: Suit, S: seq<nat>) returns (out: Views, r: Result<set<Slot>>)
    requires Increasing(S) && forall a :: 0 <= a < |S| ==> S[a] < |vs|
    ensures SameButSuits(vs, out) && Conserved(vs, out)
    ensures InsideGrows(vs, out, S, sig) && OutsideShrinks(vs, out, S, sig)
    ensures |S| == 0 ==> out == vs && r == Ok({})
    ensures |S| > 0 && SumOver(Lens(vs), S) < SuitTotal(vs, sig) ==> out == vs && r == Err(CapacityShort)
    ensures r == Err(CapacityShort) ==> |S| > 0 && SumOver(Lens(vs), S) < SuitTotal(vs, sig)
    ensures r.Err? ==> r.msg in {CapacityShort, SwapResourcesShort, NoSameRankPair}
    ensures r.Ok? && |S| > 0 ==> forall q :: IsSlot(out, q) && q.k !in S ==> CardAt(out, q).suit != sig
    ensures r.Ok? ==> forall k :: 0 <= k < |vs| && k in S ==> CountSuit(out[k], sig) <= |vs[k]|
    ensures r.Ok? ==> r.value == LockedSignal(out, S, sig)
  {
    var total := SuitTotal(vs, sig);
    if |S| > 0 && SumOver(Lens(vs), S) < total {
      return vs, Err(CapacityShort);
    }
    if |S| == 0 {
      return vs, Ok({});
    }
    var target := Targets(vs, S, sig);
    var st;
    out, st := ExecSwaps(vs, S, sig, target);
    if st != Moved {
      return out, Err(TransferError(st));
    }
    NothingLeft(vs, out, S, sig, target);
    // Step 7 of the source, which always holds.
    NoMemberEmpty(Donors(out, S, sig));
    forall k | 0 <= k < |vs| && k in S ensures CountSuit(out[k], sig) <= |vs[k]| {
      assert CountSuit(out[k], sig) == target[k];
    }
    return out, Ok(LockedSignal(out, S, sig));
  }

  /** A list with no member is empty. */
  lemma NoMemberEmpty<T>(s: seq<T>)
    ensures (forall x :: x !in s) ==> |s| == 0
  {
    if |s| > 0 {
      assert s[0] in s;
    }
  }

  /** Filling the listed views to targets that add up to the signal total leaves none outside. */
  lemma NothingLeft(vs: Views, out: Views, S: seq<nat>, sig: Suit, target: seq<int>)
    requires |target| == |vs| == |out| && Conserved(vs, out) && SameShape(vs, out)
    requires forall k :: 0 <= k < |vs| && k in S ==> CountSuit(out[k], sig) == target[k]
    requires WhereSum(target, S, |vs|) == SuitTotal(vs, sig)
    ensures forall q :: IsSlot(out, q) && q.k !in S ==> CardAt(out, q).suit != sig
  {
    WhereSumMono(target, Counts(out, sig), S, |vs|);
    WhereSumMono(Counts(out, sig), target, S, |vs|);
    SuitTotalSplit(out, sig, S);
    forall q | IsSlot(out, q) && q.k !in S ensures CardAt(out, q).suit != sig {
      CountSuitZero(out[q.k], sig);
    }
  }

  /** The loop invariant of `_ensure_signal_presence` after `a` listed views. */
  ghost predicate PresenceInv(vs: Views, out: Views, S: seq<nat>, sig: Suit, a: nat)
  {
    && a <= |S|
    && (forall a' :: 0 <= a' < |S| ==> S[a'] < |vs|)
    && SameButSuits(vs, out) && Conserved(vs, out)
    && InsideGrows(vs, out, S, sig) && OutsideShrinks(vs, out, S, sig)
    && (forall a' :: 0 <= a' < a ==> CountSuit(out[S[a']], sig) > 0)
  }

  /** A transfer into the listed view `S[a]` keeps the invariant and gives that view a signal card. */
  lemma PresenceStep(vs: Views, out: Views, next: Views, S: seq<nat>, sig: Suit, a: nat)
    requires PresenceInv(vs, out, S, sig, a) && a < |S|
    requires SameButSuits(out, next) && Conserved(out, next)
    requires CountSuit(next[S[a]], sig) == CountSuit(out[S[a]], sig) + 1
    requires forall k :: 0 <= k < |out| && k in S && k != S[a] ==> next[k] == out[k]
    requires forall q :: IsSlot(out, q) && q.k !in S && CardAt(next, q).suit == sig ==> CardAt(out, q).suit == sig
    ensures PresenceInv(vs, next, S, sig, a + 1)
  {
    SameButSuitsTrans(vs, out, next);
    forall q | IsSlot(vs, q) && q.k !in S && CardAt(next, q).suit == sig
      ensures CardAt(vs, q).suit == sig
    {
      assert IsSlot(out, q);
    }
    forall a' | 0 <= a' < a + 1 ensures CountSuit(next[S[a']], sig) > 0 {
      if S[a'] != S[a] {
        assert S[a'] in S;
      }
    }
    forall k | 0 <= k < |vs| && k in S ensures CountSuit(vs[k], sig) <= CountSuit(next[k], sig) {
      if k != S[a] {
        assert next[k] == out[k];
      }
    }
  }

  /**
    * One listed view of `_ensure_signal_presence`: a view without a signal
    * card takes one; `Moved` also stands for a view that needed none.
    */
  method PresenceOne(ghost vs: Views, out: Views, S: seq<nat>, sig: Suit, a: nat) returns (next: Views, st: Transfer)
    requires PresenceInv(vs, out, S, sig, a) && a < |S|
    ensures st == Moved ==> PresenceInv(vs, next, S, sig, a + 1)
    ensures st != Moved ==> next == out
    ensures st == NoResources <==> CountSuit(out[S[a]], sig) == 0
                                   && (|Donors(out, S, sig)| == 0 || |Receivers(out[S[a]], sig, 0)| == 0)
  {
    var idx := S[a];
    if CountSuit(out[idx], sig) > 0 {
      return out, Moved;
    }
    next, st := TransferOne(out, S, sig, idx);
    if st == Moved {
      PresenceStep(vs, out, next, S, sig, a);
    }
  }

  /**
    * `_ensure_signal_presence`, the fallback: every listed view without a
    * signal card takes one from a same-rank card outside the list. On
    * success every listed view holds the signal suit, and its signal cards
    * are locked.
    */
  method EnsureSignalPresence(vs: Views, sig: Suit, S: seq<nat>) returns (out: Views, r: Result<set<Slot>>)
    requires Increasing(S) && forall a :: 0 <= a < |S| ==> S[a] < |vs|
    ensures SameButSuits(vs, out) && Conserved(vs, out)
    ensures InsideGrows(vs, out, S, sig) && OutsideShrinks(vs, out, S, sig)
    ensures r.Err? ==> r.msg in {PresenceShort, PresenceNoPair}
    ensures r.Ok? ==> forall k :: 0 <= k < |vs| && k in S ==> CountSuit(out[k], sig) > 0
    ensures r.Ok? ==> r.value == LockedSignal(out, S, sig)
  {
    out := vs;
    for a := 0 to |S|
      invariant PresenceInv(vs, out, S, sig, a)
    {
      var next, st := PresenceOne(vs, out, S, sig, a);
      if st == NoResources {
        return out, Err(PresenceShort);
      } else if st == NoPair {
        return out, Err(PresenceNoPair);
      }
      out := next;
    }
    forall k | 0 <= k < |vs| && k in S
      ensures CountSuit(out[k], sig) > 0
    {
      var a :| 0 <= a < |S| && S[a] == k;
    }
    return out, Ok(LockedSignal(out, S, sig));
  }
}

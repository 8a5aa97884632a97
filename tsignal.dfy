// signals_ui.js (and its copy at the end of signals.js): the T signal. A
// round holding two pairs is a T round when the next round, cyclically, is a
// tie; `adjustTSignalPositions` moves ties behind the two-pairs rounds by
// exchanging whole rounds, and `applyTSignalLogicSimple` runs it once the
// numbers of two-pairs rounds and ties agree.

module TSignal {
  import opened Base
  import opened Cards
  import opened Shuffle
  import opened SignalCards

  // ---- swapRounds ----

  /** `swapRounds`: exchange two entries when the indices differ and are both in range, else nothing. */
  function SwapEntries(s: seq<Round>, i: nat, j: nat): (r: seq<Round>)
    ensures |r| == |s|
    ensures multiset(r) == multiset(s)
  {
    if i != j && i < |s| && j < |s| then ExchangePermutes(s, i, j); Exchange(s, i, j) else s
  }

  /** Swapping twice with the same indices restores the list. */
  lemma SwapEntriesInvolution(s: seq<Round>, i: nat, j: nat)
    ensures SwapEntries(SwapEntries(s, i, j), i, j) == s
  {
    if i != j && i < |s| && j < |s| {
      var r := SwapEntries(s, i, j);
      assert r[i] == s[j] && r[j] == s[i];
      assert forall k :: 0 <= k < |s| && k != i && k != j ==> r[k] == s[k];
      assert SwapEntries(r, i, j) == s;
    }
  }

  /** The entries named are exchanged and every other stays. */
  lemma SwapEntriesFields(s: seq<Round>, i: nat, j: nat)
    requires i != j && i < |s| && j < |s|
    ensures SwapEntries(s, i, j)[i] == s[j] && SwapEntries(s, i, j)[j] == s[i]
    ensures forall k :: 0 <= k < |s| && k != i && k != j ==> SwapEntries(s, i, j)[k] == s[k]
  {
  }

  method SwapRounds(a: array<Round>, i: nat, j: nat)
    modifies a
    ensures a[..] == SwapEntries(old(a[..]), i, j)
  {
    if i != j && i < a.Length && j < a.Length {
      a[i], a[j] := a[j], a[i];
    }
  }

  // ---- the index lists ----

  datatype Kind = TwoPairsKind | TieKind

  /** `hasTwoPairs(round)` or `round.result === '和'`. */
  predicate IsKind(k: Kind, r: Round)
  {
    match k
    case TwoPairsKind => HasTwoPairs(r.cards)
    case TieKind => IsTieLabel(r.result)
  }

  /** The indices `i >= from` of the rounds of kind `k`, in increasing order. */
  function IndicesFrom(rs: seq<Round>, k: Kind, from: nat): (ix: seq<nat>)
    requires from <= |rs|
    ensures forall i: nat :: i in ix <==> from <= i < |rs| && IsKind(k, rs[i])
    ensures forall a, b :: 0 <= a < b < |ix| ==> ix[a] < ix[b]
    ensures forall a :: 0 <= a < |ix| ==> from <= ix[a] < |rs|
    decreases |rs| - from
  {
    if from == |rs| then []
    else (if IsKind(k, rs[from]) then [from] else []) + IndicesFrom(rs, k, from + 1)
  }

  /** The indices of the rounds of kind `k`, in increasing order. */
  function IndicesOf(rs: seq<Round>, k: Kind): (ix: seq<nat>)
    ensures forall i: nat :: i in ix <==> i < |rs| && IsKind(k, rs[i])
    ensures forall a, b :: 0 <= a < b < |ix| ==> ix[a] < ix[b]
    ensures Below(ix, |rs|)
  {
    IndicesFrom(rs, k, 0)
  }

  /** Every entry of `xs` is an index below `n`. */
  predicate Below(xs: seq<nat>, n: nat)
  {
    forall i :: 0 <= i < |xs| ==> xs[i] < n
  }

  /** The `forEach` that fills `twoPairsIndices` and `tieIndices`. */
  method CollectIndices(rs: seq<Round>) returns (twoPairs: seq<nat>, ties: seq<nat>)
    ensures twoPairs == IndicesOf(rs, TwoPairsKind)
    ensures ties == IndicesOf(rs, TieKind)
  {
    twoPairs, ties := [], [];
    var index := |rs|;
    while index > 0
      invariant 0 <= index <= |rs|
      invariant twoPairs == IndicesFrom(rs, TwoPairsKind, index)
      invariant ties == IndicesFrom(rs, TieKind, index)
      decreases index
    {
      index := index - 1;
      if HasTwoPairs(rs[index].cards) {
        twoPairs := [index] + twoPairs;
      }
      if IsTieLabel(rs[index].result) {
        ties := [index] + ties;
      }
    }
  }

  // ---- adjustTSignalPositions ----

  /** `availableTies.delete(x)`: the set keeps its insertion order, so a filter of the list. */
  function Remove(xs: seq<nat>, x: nat): (r: seq<nat>)
    ensures forall y :: y in r <==> y in xs && y != x
    ensures |r| <= |xs|
  {
    if |xs| == 0 then []
    else (if xs[0] == x then [] else [xs[0]]) + Remove(xs[1..], x)
  }

  lemma RemoveBelow(xs: seq<nat>, x: nat, n: nat)
    requires Below(xs, n)
    ensures Below(Remove(xs, x), n)
  {
    var r := Remove(xs, x);
    forall i | 0 <= i < |r|
      ensures r[i] < n
    {
      assert r[i] in r;
    }
  }

  /** The first available tie, in insertion order, after round `tp`. */
  function FirstAbove(xs: seq<nat>, tp: nat): (r: Option<nat>)
    ensures r.Some? ==> r.value in xs && r.value > tp
    ensures r.Some? ==> exists j :: 0 <= j < |xs| && xs[j] == r.value && forall i :: 0 <= i < j ==> xs[i] <= tp
    ensures r.None? <==> forall i :: 0 <= i < |xs| ==> xs[i] <= tp
  {
    if |xs| == 0 then None
    else if xs[0] > tp then Some(xs[0])
    else
      var r := FirstAbove(xs[1..], tp);
      assert forall i :: 1 <= i < |xs| ==> xs[i] == xs[1..][i - 1];
      r
  }

  /** The tie to swap in: the first one after `tp`, failing that the first one at all. */
  function Closest(xs: seq<nat>, tp: nat): (r: Option<nat>)
    ensures r.None? <==> |xs| == 0
    ensures r.Some? ==> r.value in xs
    ensures (exists i :: 0 <= i < |xs| && xs[i] > tp) ==> r == FirstAbove(xs, tp)
    ensures (forall i :: 0 <= i < |xs| ==> xs[i] <= tp) && |xs| > 0 ==> r == Some(xs[0])
  {
    var up := FirstAbove(xs, tp);
    if up.Some? then up else if |xs| > 0 then Some(xs[0]) else None
  }

  /** The two `for ... of availableTies` searches. */
  method FindClosest(xs: seq<nat>, tp: nat) returns (closest: Option<nat>)
    ensures closest == Closest(xs, tp)
  {
    closest := None;
    var i := 0;
    while i < |xs|
      invariant 0 <= i <= |xs|
      invariant FirstAbove(xs, tp) == FirstAbove(xs[i..], tp)
      decreases |xs| - i
    {
      if xs[i] > tp {
        closest := Some(xs[i]);
        assert xs[i..][0] == xs[i];
        return;
      }
      assert xs[i..][1..] == xs[i + 1..];
      i := i + 1;
    }
    if |xs| > 0 {
      closest := Some(xs[0]);
    }
  }

  /**
    * One two-pairs index `tp`: if the next round is already a tie it is no
    * longer available; otherwise the closest available tie is swapped into
    * the next position and is no longer available.
    */
  function TStep(s: seq<Round>, avail: seq<nat>, tp: nat): (r: (seq<Round>, seq<nat>))
    requires tp < |s| && Below(avail, |s|)
    ensures |r.0| == |s| && Below(r.1, |s|)
    ensures multiset(r.0) == multiset(s)
  {
    var next := (tp + 1) % |s|;
    RemoveBelow(avail, next, |s|);
    if IsTieLabel(s[next].result) then (s, Remove(avail, next))
    else
      match Closest(avail, tp)
      case None => (s, avail)
      case Some(t) =>
        RemoveBelow(avail, t, |s|);
        (SwapEntries(s, next, t), Remove(avail, t))
  }

  /** Every two-pairs index in turn. */
  function Reorder(s: seq<Round>, avail: seq<nat>, tps: seq<nat>): (r: seq<Round>)
    requires Below(tps, |s|) && Below(avail, |s|)
    ensures |r| == |s|
    decreases |tps|
  {
    if |tps| == 0 then s
    else
      var st := TStep(s, avail, tps[0]);
      Reorder(st.0, st.1, tps[1..])
  }

  /** The reordering only exchanges rounds: the result is a permutation of its input. */
  lemma {:induction false} ReorderPermutation(s: seq<Round>, avail: seq<nat>, tps: seq<nat>)
    requires Below(tps, |s|) && Below(avail, |s|)
    ensures multiset(Reorder(s, avail, tps)) == multiset(s)
    decreases |tps|
  {
    if |tps| > 0 {
      var st := TStep(s, avail, tps[0]);
      ReorderPermutation(st.0, st.1, tps[1..]);
    }
  }

  /** The final pass: a round is a T round when it has two pairs and the next round, cyclically, is a tie. */
  function MarkT(s: seq<Round>): (r: seq<Round>)
    ensures |r| == |s|
    ensures forall k :: 0 <= k < |s| ==> r[k] == s[k].(isT := r[k].isT)
    ensures forall k :: 0 <= k < |s| ==> (r[k].isT <==> HasTwoPairs(r[k].cards) && IsTieLabel(r[(k + 1) % |s|].result))
  {
    seq(|s|, k requires 0 <= k < |s| => s[k].(isT := HasTwoPairs(s[k].cards) && IsTieLabel(s[(k + 1) % |s|].result)))
  }

  /** A list where every two-pairs round precedes a tie has all of them marked T, and no other round. */
  lemma MarkTAll(s: seq<Round>)
    requires forall k :: 0 <= k < |s| && HasTwoPairs(s[k].cards) ==> IsTieLabel(s[(k + 1) % |s|].result)
    ensures forall k :: 0 <= k < |s| ==> (MarkT(s)[k].isT <==> HasTwoPairs(s[k].cards))
  {
    var r := MarkT(s);
    forall k | 0 <= k < |s|
      ensures r[k].isT <==> HasTwoPairs(s[k].cards)
    {
      assert r[k].cards == s[k].cards;
      assert r[(k + 1) % |s|].result == s[(k + 1) % |s|].result;
    }
  }

  method ReorderLoop(a: array<Round>, tps: seq<nat>, ties: seq<nat>)
    requires Below(tps, a.Length) && Below(ties, a.Length)
    modifies a
    ensures a[..] == Reorder(old(a[..]), ties, tps)
  {
    var avail := ties;
    ghost var goal := Reorder(a[..], ties, tps);
    for i := 0 to |tps|
      invariant Below(avail, a.Length)
      invariant Reorder(a[..], avail, tps[i..]) == goal
    {
      ReorderUnfold(a[..], avail, tps, i);
      avail := ReorderOne(a, avail, tps[i]);
    }
  }

  /** The body of the loop over the two-pairs indices: one `TStep` in place. */
  method ReorderOne(a: array<Round>, avail: seq<nat>, tp: nat) returns (avail': seq<nat>)
    requires tp < a.Length && Below(avail, a.Length)
    modifies a
    ensures (a[..], avail') == TStep(old(a[..]), avail, tp)
  {
    var next := (tp + 1) % a.Length;
    RemoveBelow(avail, next, a.Length);
    if IsTieLabel(a[next].result) {
      avail' := Remove(avail, next);
    } else {
      var closest := FindClosest(avail, tp);
      avail' := avail;
      if closest.Some? {
        RemoveBelow(avail, closest.value, a.Length);
        SwapRounds(a, next, closest.value);
        avail' := Remove(avail, closest.value);
      }
    }
  }

  /** The reordering from the `i`-th two-pairs index on is one step, then the rest. */
  lemma ReorderUnfold(s: seq<Round>, avail: seq<nat>, tps: seq<nat>, i: nat)
    requires Below(tps, |s|) && Below(avail, |s|) && i < |tps|
    ensures Reorder(s, avail, tps[i..])
            == Reorder(TStep(s, avail, tps[i]).0, TStep(s, avail, tps[i]).1, tps[i + 1..])
  {
    assert tps[i..][0] == tps[i] && tps[i..][1..] == tps[i + 1..];
  }

  method MarkTLoop(a: array<Round>)
    modifies a
    ensures a[..] == MarkT(old(a[..]))
  {
    ghost var s := a[..];
    for k := 0 to a.Length
      invariant forall j :: 0 <= j < k ==> a[j] == MarkT(s)[j]
      invariant forall j :: k <= j < a.Length ==> a[j] == s[j]
    {
      var nextIdx := (k + 1) % a.Length;
      assert a[nextIdx].result == s[nextIdx].result;
      if !HasTwoPairs(a[k].cards) {
        a[k] := a[k].(isT := false);
      } else {
        a[k] := a[k].(isT := IsTieLabel(a[nextIdx].result));
      }
    }
    assert a[..] == MarkT(s);
  }

  /**
    * `adjustTSignalPositions`: for each two-pairs index in turn, bring a tie
    * behind it (the next round if it is one, else the first available tie
    * after it, else the first available tie), then mark every round T that
    * has two pairs and is followed, cyclically, by a tie. The rounds are only
    * exchanged, and only `isT` changes.
    */
  method AdjustTSignalPositions(a: array<Round>, tps: seq<nat>, ties: seq<nat>)
    requires Below(tps, a.Length) && Below(ties, a.Length)
    modifies a
    ensures a[..] == MarkT(Reorder(old(a[..]), ties, tps))
    ensures forall k :: 0 <= k < a.Length ==> a[k] == Reorder(old(a[..]), ties, tps)[k].(isT := a[k].isT)
    ensures forall k :: 0 <= k < a.Length ==> (a[k].isT <==> HasTwoPairs(a[k].cards) && IsTieLabel(a[(k + 1) % a.Length].result))
  {
    ReorderLoop(a, tps, ties);
    MarkTLoop(a);
  }

  // ---- applyTSignalLogicSimple ----

  /** `round.isT = false` on every round. */
  function ClearT(s: seq<Round>): (r: seq<Round>)
    ensures |r| == |s|
    ensures forall k :: 0 <= k < |s| ==> r[k] == s[k].(isT := false)
  {
    seq(|s|, k requires 0 <= k < |s| => s[k].(isT := false))
  }

  method ClearTLoop(a: array<Round>)
    modifies a
    ensures a[..] == ClearT(old(a[..]))
  {
    ghost var s := a[..];
    for k := 0 to a.Length
      invariant forall j :: 0 <= j < k ==> a[j] == s[j].(isT := false)
      invariant forall j :: k <= j < a.Length ==> a[j] == s[j]
    {
      if a[k].isT {
        a[k] := a[k].(isT := false);
      }
    }
  }

  function NonC(s: seq<Round>): (r: seq<Round>)
    ensures forall x :: x in r <==> x in s && x.segment != SegC
  {
    if |s| == 0 then [] else (if s[0].segment != SegC then [s[0]] else []) + NonC(s[1..])
  }

  function OnlyC(s: seq<Round>): (r: seq<Round>)
    ensures forall x :: x in r <==> x in s && x.segment == SegC
  {
    if |s| == 0 then [] else (if s[0].segment == SegC then [s[0]] else []) + OnlyC(s[1..])
  }

  /** `[...nonCRounds, ...cRounds]`: segment C rounds moved to the end, each part in its old order. */
  function CToEnd(s: seq<Round>): seq<Round>
  {
    NonC(s) + OnlyC(s)
  }

  /** Moving segment C to the end is a permutation. */
  lemma {:induction false} CToEndPermutation(s: seq<Round>)
    ensures multiset(CToEnd(s)) == multiset(s)
  {
    if |s| > 0 {
      CToEndPermutation(s[1..]);
      assert s == [s[0]] + s[1..];
    }
  }

  /** A list whose segment C rounds already come last is left as it is. */
  lemma {:induction false} CToEndIdentity(s: seq<Round>)
    requires forall i, j :: 0 <= i < j < |s| && s[i].segment == SegC ==> s[j].segment == SegC
    ensures CToEnd(s) == s
  {
    if |s| > 0 {
      CToEndIdentity(s[1..]);
      if s[0].segment == SegC {
        AllC(s);
      } else {
        assert s == [s[0]] + s[1..];
      }
    }
  }

  lemma {:induction false} AllC(s: seq<Round>)
    requires forall i :: 0 <= i < |s| ==> s[i].segment == SegC
    ensures NonC(s) == [] && OnlyC(s) == s
  {
    if |s| > 0 {
      AllC(s[1..]);
      assert s == [s[0]] + s[1..];
    }
  }

  /** The whole T-signal pass on a list whose counts agree: C to the end, recount, adjust, mark. */
  function TSignalPass(s: seq<Round>): seq<Round>
  {
    var moved := CToEnd(s);
    MarkT(Reorder(moved, IndicesOf(moved, TieKind), IndicesOf(moved, TwoPairsKind)))
  }

  /** The pass is a permutation of its input up to the T marks. */
  lemma TSignalPassPermutation(s: seq<Round>)
    ensures |TSignalPass(s)| == |s|
    ensures multiset(ClearT(TSignalPass(s))) == multiset(ClearT(s))
  {
    var moved := CToEnd(s);
    CToEndPermutation(s);
    var re := Reorder(moved, IndicesOf(moved, TieKind), IndicesOf(moved, TwoPairsKind));
    ReorderPermutation(moved, IndicesOf(moved, TieKind), IndicesOf(moved, TwoPairsKind));
    assert |moved| == |s| by {
      assert |multiset(moved)| == |multiset(s)|;
    }
    assert ClearT(MarkT(re)) == ClearT(re);
    ClearTPermutation(re, s);
  }

  /** Clearing the marks of two permutations of each other gives permutations of each other. */
  lemma ClearTPermutation(a: seq<Round>, b: seq<Round>)
    requires multiset(a) == multiset(b)
    ensures multiset(ClearT(a)) == multiset(ClearT(b))
  {
    var f := (r: Round) => r.(isT := false);
    MapPermutation(a, b, f);
    assert ClearT(a) == MapSeq(a, f);
    assert ClearT(b) == MapSeq(b, f);
  }

  function MapSeq<T, U>(s: seq<T>, f: T -> U): (r: seq<U>)
    ensures |r| == |s|
    ensures forall k :: 0 <= k < |s| ==> r[k] == f(s[k])
  {
    seq(|s|, k requires 0 <= k < |s| => f(s[k]))
  }

  lemma {:induction false} MapPermutation<T, U>(a: seq<T>, b: seq<T>, f: T -> U)
    requires multiset(a) == multiset(b)
    ensures multiset(MapSeq(a, f)) == multiset(MapSeq(b, f))
    decreases |a|
  {
    if |a| > 0 {
      var x := a[0];
      assert x in multiset(b);
      var j :| 0 <= j < |b| && b[j] == x;
      var rest := b[..j] + b[j + 1..];
      assert b == b[..j] + [x] + b[j + 1..];
      assert multiset(rest) == multiset(b) - multiset{x};
      assert a == [x] + a[1..];
      assert multiset(a[1..]) == multiset(a) - multiset{x};
      MapPermutation(a[1..], rest, f);
      MapConcat([x], a[1..], f);
      MapConcat(b[..j] + [x], b[j + 1..], f);
      MapConcat(b[..j], [x], f);
      MapConcat(b[..j], b[j + 1..], f);
    }
  }

  lemma MapConcat<T, U>(x: seq<T>, y: seq<T>, f: T -> U)
    ensures MapSeq(x + y, f) == MapSeq(x, f) + MapSeq(y, f)
  {
    var l, r := MapSeq(x + y, f), MapSeq(x, f) + MapSeq(y, f);
    forall k | 0 <= k < |l|
      ensures l[k] == r[k]
    {
      if k < |x| {
        assert (x + y)[k] == x[k];
      } else {
        assert (x + y)[k] == y[k - |x|];
      }
    }
  }

  /**
    * `applyTSignalLogicSimple`: nothing happens to an empty list; otherwise
    * every mark is cleared, and when the numbers of two-pairs rounds and ties
    * differ the list is returned as it is. When they agree a new list with
    * segment C moved to the end is adjusted and returned.
    */
  method ApplyTSignalLogicSimple(rounds: array<Round>) returns (out: array<Round>)
    modifies rounds
    ensures rounds.Length == 0 ==> out == rounds && rounds[..] == old(rounds[..])
    ensures rounds[..] == ClearT(old(rounds[..]))
    ensures |IndicesOf(rounds[..], TwoPairsKind)| != |IndicesOf(rounds[..], TieKind)| ==> out == rounds
    ensures rounds.Length > 0 && |IndicesOf(rounds[..], TwoPairsKind)| == |IndicesOf(rounds[..], TieKind)| ==>
              fresh(out) && out[..] == TSignalPass(rounds[..])
  {
    if rounds.Length == 0 {
      return rounds;
    }
    ClearTLoop(rounds);
    var cleared := rounds[..];
    var twoPairs, ties := CollectIndices(cleared);
    if |twoPairs| != |ties| {
      return rounds;
    }
    out := RunTSignalPass(cleared);
  }

  /** Segment C to the end, into a new array, then `adjustTSignalPositions` on it. */
  method RunTSignalPass(rs: seq<Round>) returns (out: array<Round>)
    ensures fresh(out) && out[..] == TSignalPass(rs)
  {
    var moved := CToEnd(rs);
    out := new Round[|moved|](k requires 0 <= k < |moved| => moved[k]);
    assert out[..] == moved;
    var finalTwoPairs, finalTies := CollectIndices(moved);
    AdjustTSignalPositions(out, finalTwoPairs, finalTies);
  }
}

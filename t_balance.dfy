// signals_ui.js `applyTSignalLogic`, phases 1 and 2: segment A first loses
// every round that is both a two-pairs round and a tie, then, walking from
// the end, as many ties as outnumber the two-pairs rounds. The removed rounds'
// positions are deleted from the used set.

module TBalance {
  import opened Base
  import opened Cards
  import opened Pool
  import opened SignalCards
  import opened TSignal
  import opened JsPack

  /** What a removal pass looks for: a round of one kind, or a two-pairs tie. */
  datatype Query = Is(kind: Kind) | TwoPairsTie

  predicate Hits(q: Query, r: Round)
  {
    match q
    case Is(k) => IsKind(k, r)
    case TwoPairsTie => HasTwoPairs(r.cards) && IsTieLabel(r.result)
  }

  /** `rs.filter(...).length`. */
  function CountOf(rs: seq<Round>, q: Query): (n: nat)
    ensures n <= |rs|
  {
    if |rs| == 0 then 0
    else CountOf(rs[..|rs| - 1], q) + (if Hits(q, rs[|rs| - 1]) then 1 else 0)
  }

  lemma {:induction false} CountOfZero(rs: seq<Round>, q: Query)
    ensures CountOf(rs, q) == 0 <==> forall i :: 0 <= i < |rs| ==> !Hits(q, rs[i])
  {
    if |rs| > 0 {
      var init := rs[..|rs| - 1];
      CountOfZero(init, q);
      assert forall i :: 0 <= i < |init| ==> init[i] == rs[i];
    }
  }

  lemma {:induction false} CountOfConcat(s: seq<Round>, t: seq<Round>, q: Query)
    ensures CountOf(s + t, q) == CountOf(s, q) + CountOf(t, q)
  {
    if |t| == 0 {
      assert s + t == s;
    } else {
      var st := s + t;
      assert st[..|st| - 1] == s + t[..|t| - 1] && st[|st| - 1] == t[|t| - 1];
      CountOfConcat(s, t[..|t| - 1], q);
    }
  }

  /**
    * The rounds a backwards pass keeps: walking from the last round down, the
    * first `k` rounds that hit are spliced out.
    */
  function Kept(rs: seq<Round>, q: Query, k: nat): seq<Round>
  {
    if |rs| == 0 then []
    else if k > 0 && Hits(q, rs[|rs| - 1]) then Kept(rs[..|rs| - 1], q, k - 1)
    else Kept(rs[..|rs| - 1], q, k) + [rs[|rs| - 1]]
  }

  /** The rounds the same pass removes, in the order it removes them (highest index first). */
  function Removed(rs: seq<Round>, q: Query, k: nat): seq<Round>
  {
    if |rs| == 0 then []
    else if k > 0 && Hits(q, rs[|rs| - 1]) then [rs[|rs| - 1]] + Removed(rs[..|rs| - 1], q, k - 1)
    else Removed(rs[..|rs| - 1], q, k)
  }

  function Min(a: nat, b: nat): nat
  {
    if a <= b then a else b
  }

  /** The pass splits the rounds: what it keeps and what it removes are the rounds it was given. */
  lemma {:induction false} KeptRemovedSplit(rs: seq<Round>, q: Query, k: nat)
    ensures multiset(Kept(rs, q, k)) + multiset(Removed(rs, q, k)) == multiset(rs)
  {
    if |rs| > 0 {
      var init, last := rs[..|rs| - 1], rs[|rs| - 1];
      assert rs == init + [last];
      if k > 0 && Hits(q, last) {
        KeptRemovedSplit(init, q, k - 1);
      } else {
        KeptRemovedSplit(init, q, k);
      }
    }
  }

  /**
    * It removes only rounds that hit, and as many as it may: `k`, or every
    * hit when there are fewer.
    */
  lemma {:induction false} RemovedHits(rs: seq<Round>, q: Query, k: nat)
    ensures forall i :: 0 <= i < |Removed(rs, q, k)| ==> Hits(q, Removed(rs, q, k)[i])
    ensures |Removed(rs, q, k)| == Min(k, CountOf(rs, q))
  {
    if |rs| > 0 {
      var init, last := rs[..|rs| - 1], rs[|rs| - 1];
      if k > 0 && Hits(q, last) {
        RemovedHits(init, q, k - 1);
      } else {
        RemovedHits(init, q, k);
      }
    }
  }

  /** After the pass, the hits left are those beyond the first `k`. */
  lemma {:induction false} KeptCount(rs: seq<Round>, q: Query, k: nat)
    ensures CountOf(Kept(rs, q, k), q) == CountOf(rs, q) - Min(k, CountOf(rs, q))
  {
    if |rs| > 0 {
      var init, last := rs[..|rs| - 1], rs[|rs| - 1];
      if k > 0 && Hits(q, last) {
        KeptCount(init, q, k - 1);
      } else {
        KeptCount(init, q, k);
        var kept := Kept(init, q, k) + [last];
        assert kept[..|kept| - 1] == Kept(init, q, k);
      }
    }
  }

  /** Rounds of another query that never hit the pass's query are all kept. */
  lemma {:induction false} KeptCountOther(rs: seq<Round>, q: Query, other: Query, k: nat)
    requires forall i :: 0 <= i < |rs| && Hits(q, rs[i]) ==> !Hits(other, rs[i])
    ensures CountOf(Kept(rs, q, k), other) == CountOf(rs, other)
  {
    if |rs| > 0 {
      var init, last := rs[..|rs| - 1], rs[|rs| - 1];
      assert forall i :: 0 <= i < |init| ==> init[i] == rs[i];
      if k > 0 && Hits(q, last) {
        KeptCountOther(init, q, other, k - 1);
      } else {
        KeptCountOther(init, q, other, k);
        var kept := Kept(init, q, k) + [last];
        assert kept[..|kept| - 1] == Kept(init, q, k);
      }
    }
  }

  lemma {:induction false} KeptNone(rs: seq<Round>, q: Query)
    ensures Kept(rs, q, 0) == rs && Removed(rs, q, 0) == []
  {
    if |rs| > 0 {
      KeptNone(rs[..|rs| - 1], q);
      assert rs == rs[..|rs| - 1] + [rs[|rs| - 1]];
    }
  }

  /** The state of the backwards loop after it has looked at the rounds from `i` on. */
  predicate Walked(rs: seq<Round>, q: Query, k: nat, i: nat, n: nat, kept: seq<Round>, removed: seq<Round>)
  {
    i <= |rs| && i <= |kept| && n <= k
    && kept[..i] == rs[..i]
    && Kept(rs, q, k) == Kept(rs[..i], q, k - n) + kept[i..]
    && Removed(rs, q, k) == removed + Removed(rs[..i], q, k - n)
  }

  lemma WalkStep(rs: seq<Round>, q: Query, k: nat, i: nat, n: nat, kept: seq<Round>, removed: seq<Round>)
    requires Walked(rs, q, k, i, n, kept, removed) && i > 0 && n < k
    ensures Hits(q, rs[i - 1])
            ==> Walked(rs, q, k, i - 1, n + 1, kept[..i - 1] + kept[i..], removed + [rs[i - 1]])
    ensures !Hits(q, rs[i - 1]) ==> Walked(rs, q, k, i - 1, n, kept, removed)
  {
    var pre := rs[..i];
    assert pre[..i - 1] == rs[..i - 1] && pre[i - 1] == rs[i - 1];
    assert kept[i - 1] == rs[i - 1] by {
      assert kept[..i][i - 1] == rs[..i][i - 1];
    }
    assert kept[..i - 1] == rs[..i - 1] by {
      assert kept[..i - 1] == kept[..i][..i - 1];
    }
    if Hits(q, rs[i - 1]) {
      var kept' := kept[..i - 1] + kept[i..];
      assert kept'[..i - 1] == rs[..i - 1];
      assert kept'[i - 1..] == kept[i..];
    } else {
      assert kept[i - 1..] == [rs[i - 1]] + kept[i..];
    }
  }

  lemma WalkDone(rs: seq<Round>, q: Query, k: nat, i: nat, n: nat, kept: seq<Round>, removed: seq<Round>)
    requires Walked(rs, q, k, i, n, kept, removed) && (i == 0 || n == k)
    ensures kept == Kept(rs, q, k) && removed == Removed(rs, q, k)
  {
    if n == k {
      KeptNone(rs[..i], q);
      assert kept == kept[..i] + kept[i..];
    } else {
      assert kept[i..] == kept;
    }
  }

  /**
    * A removal loop of `applyTSignalLogic`: from the last round down, splice
    * out each round that hits, until `k` are removed; `removeRoundByIndex`
    * keeps them in order and deletes their positions from the used set.
    */
  method RemoveFromEnd(rs: seq<Round>, used: set<int>, q: Query, k: nat)
    returns (kept: seq<Round>, removed: seq<Round>, usedOut: set<int>)
    ensures kept == Kept(rs, q, k) && removed == Removed(rs, q, k)
    ensures usedOut == used - RoundPositions(removed)
  {
    kept, removed, usedOut := rs, [], used;
    var i, n := |rs|, 0;
    assert rs[..i] == rs && kept[i..] == [];
    while i > 0 && n < k
      invariant Walked(rs, q, k, i, n, kept, removed)
      invariant usedOut == used - RoundPositions(removed)
      decreases i
    {
      WalkStep(rs, q, k, i, n, kept, removed);
      var round := kept[i - 1];
      if Hits(q, round) {
        RoundPositionsAppend(removed, round);
        kept := kept[..i - 1] + kept[i..];
        removed := removed + [round];
        usedOut := usedOut - Positions(round.cards);
        n := n + 1;
      }
      i := i - 1;
    }
    WalkDone(rs, q, k, i, n, kept, removed);
  }

  // ---- the two phases together ----

  /** How many ties outnumber the two-pairs rounds. */
  function Excess(rs: seq<Round>): nat
  {
    var ties, pairs := CountOf(rs, Is(TieKind)), CountOf(rs, Is(TwoPairsKind));
    if ties > pairs then ties - pairs else 0
  }

  /**
    * Phases 1 and 2 on the segment A rounds: the rounds kept, and the rounds
    * removed in removal order.
    */
  function Phases(a: seq<Round>): (seq<Round>, seq<Round>)
  {
    var kept1 := Kept(a, TwoPairsTie, |a|);
    var removed1 := Removed(a, TwoPairsTie, |a|);
    var excess := Excess(kept1);
    if excess > 0 then (Kept(kept1, Is(TieKind), excess), removed1 + Removed(kept1, Is(TieKind), excess))
    else (kept1, removed1)
  }

  /**
    * After the phases no round is a two-pairs tie, there are no more ties
    * than two-pairs rounds (exactly as many when phase 2 had to act), and
    * kept and removed rounds together are the rounds given.
    */
  lemma PhasesBalance(a: seq<Round>)
    ensures forall i :: 0 <= i < |Phases(a).0| ==> !Hits(TwoPairsTie, Phases(a).0[i])
    ensures CountOf(Phases(a).0, Is(TieKind)) <= CountOf(Phases(a).0, Is(TwoPairsKind))
    ensures Excess(Kept(a, TwoPairsTie, |a|)) > 0
            ==> CountOf(Phases(a).0, Is(TieKind)) == CountOf(Phases(a).0, Is(TwoPairsKind))
    ensures multiset(Phases(a).0) + multiset(Phases(a).1) == multiset(a)
  {
    var kept1 := Kept(a, TwoPairsTie, |a|);
    var removed1 := Removed(a, TwoPairsTie, |a|);
    KeptCount(a, TwoPairsTie, |a|);
    KeptRemovedSplit(a, TwoPairsTie, |a|);
    CountOfZero(kept1, TwoPairsTie);
    var excess := Excess(kept1);
    if excess > 0 {
      var kept2 := Kept(kept1, Is(TieKind), excess);
      KeptCount(kept1, Is(TieKind), excess);
      KeptCountOther(kept1, Is(TieKind), Is(TwoPairsKind), excess);
      KeptRemovedSplit(kept1, Is(TieKind), excess);
      KeptCountOther(kept1, Is(TieKind), TwoPairsTie, excess);
      CountOfZero(kept2, TwoPairsTie);
    }
  }

  /** The removed rounds are two-pairs ties, and then ties. */
  lemma PhasesRemoveTies(a: seq<Round>)
    ensures forall i :: 0 <= i < |Phases(a).1| ==> IsTieLabel(Phases(a).1[i].result)
  {
    var kept1 := Kept(a, TwoPairsTie, |a|);
    RemovedHits(a, TwoPairsTie, |a|);
    var excess := Excess(kept1);
    if excess > 0 {
      RemovedHits(kept1, Is(TieKind), excess);
    }
  }

  /** Phases 1 and 2 as `applyTSignalLogic` runs them, on the segment A rounds and the used set. */
  method BreakTies(a: seq<Round>, used: set<int>) returns (kept: seq<Round>, removed: seq<Round>, usedOut: set<int>)
    ensures (kept, removed) == Phases(a)
    ensures usedOut == used - RoundPositions(removed)
  {
    var removed1;
    kept, removed1, usedOut := RemoveFromEnd(a, used, TwoPairsTie, |a|);
    removed := removed1;
    var pairs := CountOf(kept, Is(TwoPairsKind));
    var ties := CountOf(kept, Is(TieKind));
    if ties > pairs {
      var removed2;
      kept, removed2, usedOut := RemoveFromEnd(kept, usedOut, Is(TieKind), ties - pairs);
      RoundPositionsConcat(removed1, removed2);
      removed := removed1 + removed2;
    }
  }
}

// go/waa.py `late_balance` and `balance_non_tie_suits`: repeatedly move one
// card from the most common suit to the least common one, by exchanging
// suits with a same-rank card, skipping locked cards.

module Balance {
  import opened Base
  import opened Cards
  import opened Suits

  // ---- the one move both loops make ----

  /** An unlocked card of suit `t` and rank `r`. */
  predicate Free(vs: Views, locked: set<Slot>, t: Suit, r: Rank, q: Slot)
  {
    IsSlot(vs, q) && q !in locked && CardAt(vs, q).suit == t && CardAt(vs, q).rank == r
  }

  /** An unlocked card of suit `hi` whose rank some unlocked card of suit `lo` shares. */
  ghost predicate Movable(vs: Views, locked: set<Slot>, hi: Suit, lo: Suit, a: Slot)
  {
    IsSlot(vs, a) && a !in locked && CardAt(vs, a).suit == hi
    && exists b :: Free(vs, locked, lo, CardAt(vs, a).rank, b)
  }

  /** The last unlocked card of suit `t` and rank `r` in shoe order: `lo_cards_by_rank[r].pop()`. */
  method LastFree(vs: Views, locked: set<Slot>, t: Suit, r: Rank) returns (b: Option<Slot>)
    ensures b.Some? ==> Free(vs, locked, t, r, b.value)
    ensures b.Some? ==> forall q :: Free(vs, locked, t, r, q) ==> !Before(b.value, q)
    ensures b.None? ==> forall q :: !Free(vs, locked, t, r, q)
  {
    b := None;
    for k := 0 to |vs|
      invariant b.Some? ==> Free(vs, locked, t, r, b.value) && b.value.k < k
      invariant forall q :: Free(vs, locked, t, r, q) && q.k < k ==> b.Some? && !Before(b.value, q)
    {
      for j := 0 to |vs[k]|
        invariant b.Some? ==> Free(vs, locked, t, r, b.value) && Before(b.value, Slot(k, j))
        invariant forall q :: Free(vs, locked, t, r, q) && Before(q, Slot(k, j)) ==> b.Some? && !Before(b.value, q)
      {
        if Slot(k, j) !in locked && vs[k][j].suit == t && vs[k][j].rank == r {
          assert Free(vs, locked, t, r, Slot(k, j));
          b := Some(Slot(k, j));
        }
      }
    }
  }

  /**
    * One move: the first unlocked `hi` card (in shoe order) that has an
    * unlocked `lo` card of the same rank exchanges suits with the last such
    * `lo` card; `moved` is false when there is none.
    */
  method MoveOne(vs: Views, locked: set<Slot>, hi: Suit, lo: Suit) returns (out: Views, moved: bool)
    ensures SameButSuits(vs, out) && Conserved(vs, out)
    ensures !moved <==> forall a :: !Movable(vs, locked, hi, lo, a)
    ensures !moved ==> out == vs
    ensures moved ==> exists a, b ::
              Movable(vs, locked, hi, lo, a) && Free(vs, locked, lo, CardAt(vs, a).rank, b)
              && out == SwapSuits(vs, a, b)
    ensures forall q :: IsSlot(vs, q) && (q in locked || (CardAt(vs, q).suit != hi && CardAt(vs, q).suit != lo))
              ==> CardAt(out, q) == CardAt(vs, q)
  {
    for k := 0 to |vs|
      invariant forall a :: Movable(vs, locked, hi, lo, a) ==> a.k >= k
    {
      for j := 0 to |vs[k]|
        invariant forall a :: Movable(vs, locked, hi, lo, a) ==> a.k > k || (a.k == k && a.j >= j)
      {
        if Slot(k, j) !in locked && vs[k][j].suit == hi {
          var b := LastFree(vs, locked, lo, vs[k][j].rank);
          if b.Some? {
            MoveFacts(vs, locked, hi, lo, Slot(k, j), b.value);
            return SwapSuits(vs, Slot(k, j), b.value), true;
          }
        }
      }
    }
    return vs, false;
  }

  /** The facts `MoveOne` promises about the exchange it makes. */
  lemma MoveFacts(vs: Views, locked: set<Slot>, hi: Suit, lo: Suit, a: Slot, b: Slot)
    requires IsSlot(vs, a) && a !in locked && CardAt(vs, a).suit == hi
    requires Free(vs, locked, lo, CardAt(vs, a).rank, b)
    ensures Movable(vs, locked, hi, lo, a)
    ensures SameButSuits(vs, SwapSuits(vs, a, b)) && Conserved(vs, SwapSuits(vs, a, b))
    ensures forall q :: IsSlot(vs, q) && (q in locked || (CardAt(vs, q).suit != hi && CardAt(vs, q).suit != lo))
              ==> CardAt(SwapSuits(vs, a, b), q) == CardAt(vs, q)
  {
    SwapSuitsKeepsCounts(vs, a, b);
  }

  // ---- choosing the suits ----

  /** The index of the first largest entry: Python's `max(..., key=...)`. */
  function FirstMax(xs: seq<int>): (i: nat)
    requires |xs| > 0
    ensures i < |xs|
    ensures forall m :: 0 <= m < |xs| ==> xs[m] <= xs[i]
    ensures forall m :: 0 <= m < i ==> xs[m] < xs[i]
  {
    if |xs| == 1 then 0
    else
      var t := FirstMax(xs[1..]);
      if xs[0] >= xs[1..][t] then 0 else t + 1
  }

  /** The index of the first smallest entry: Python's `min(..., key=...)`. */
  function FirstMin(xs: seq<int>): (i: nat)
    requires |xs| > 0
    ensures i < |xs|
    ensures forall m :: 0 <= m < |xs| ==> xs[i] <= xs[m]
    ensures forall m :: 0 <= m < i ==> xs[i] < xs[m]
  {
    if |xs| == 1 then 0
    else
      var t := FirstMin(xs[1..]);
      if xs[0] <= xs[1..][t] then 0 else t + 1
  }

  /** The suit counts of the listed suits, in list order. */
  function Tally(vs: Views, ss: seq<Suit>): (c: seq<int>)
    ensures |c| == |ss|
    ensures forall i :: 0 <= i < |ss| ==> c[i] == SuitTotal(vs, ss[i])
  {
    seq(|ss|, i requires 0 <= i < |ss| => SuitTotal(vs, ss[i]))
  }

  /** The suits `late_balance` balances: those that are neither the signal suit nor the tie suit, in suit order. */
  function BalancedSuits(sig: Option<Suit>, tie: Option<Suit>): (ss: seq<Suit>)
    ensures forall a, b :: 0 <= a < b < |ss| ==> ss[a] != ss[b]
  {
    OnlyIfBalanced(Spade, sig, tie) + OnlyIfBalanced(Heart, sig, tie) + OnlyIfBalanced(Diamond, sig, tie) + OnlyIfBalanced(Club, sig, tie)
  }

  /** `s` alone when it is neither excluded suit, else nothing. */
  function OnlyIfBalanced(s: Suit, sig: Option<Suit>, tie: Option<Suit>): (ss: seq<Suit>)
    ensures forall t :: t in ss <==> t == s && Some(s) != sig && Some(s) != tie
  {
    if Some(s) != sig && Some(s) != tie then [s] else []
  }

  /** The balanced suits are exactly the suits that are neither excluded suit. */
  lemma BalancedSuitsMembers(sig: Option<Suit>, tie: Option<Suit>, s: Suit)
    ensures s in BalancedSuits(sig, tie) <==> Some(s) != sig && Some(s) != tie
  {
    var a, b, c, d := OnlyIfBalanced(Spade, sig, tie), OnlyIfBalanced(Heart, sig, tie), OnlyIfBalanced(Diamond, sig, tie), OnlyIfBalanced(Club, sig, tie);
    assert BalancedSuits(sig, tie) == a + b + c + d;
    assert s in a + b + c + d <==> s in a || s in b || s in c || s in d;
  }

  /** With only a tie suit excluded, three suits are balanced. */
  lemma ThreeOtherSuits(t: Suit)
    ensures |BalancedSuits(None, Some(t))| == 3
  {
  }

  /** No two of the listed suits differ in count by more than `diff`. */
  ghost predicate WithinDiff(vs: Views, ss: seq<Suit>, diff: int)
  {
    forall a, b :: 0 <= a < |ss| && 0 <= b < |ss| ==> SuitTotal(vs, ss[a]) - SuitTotal(vs, ss[b]) <= diff
  }

  /** The cards a balancing loop may not touch: locked ones and those of suits it does not balance. */
  ghost predicate Untouched(vs0: Views, vs: Views, locked: set<Slot>, ss: seq<Suit>)
    requires SameShape(vs0, vs)
  {
    forall q :: IsSlot(vs0, q) && (q in locked || CardAt(vs0, q).suit !in ss) ==> CardAt(vs, q) == CardAt(vs0, q)
  }

  /** A move between two balanced suits keeps the untouched cards untouched. */
  lemma MoveKeepsUntouched(vs0: Views, vs: Views, out: Views, locked: set<Slot>, ss: seq<Suit>, hi: Suit, lo: Suit)
    requires SameShape(vs0, vs) && SameShape(vs, out) && Untouched(vs0, vs, locked, ss)
    requires hi in ss && lo in ss
    requires forall q :: IsSlot(vs, q) && (q in locked || (CardAt(vs, q).suit != hi && CardAt(vs, q).suit != lo))
               ==> CardAt(out, q) == CardAt(vs, q)
    ensures SameShape(vs0, out) && Untouched(vs0, out, locked, ss)
  {
    forall q | IsSlot(vs0, q) && (q in locked || CardAt(vs0, q).suit !in ss)
      ensures CardAt(out, q) == CardAt(vs0, q)
    {
      assert IsSlot(vs, q);
    }
  }

  /**
    * `late_balance`: up to 120 moves from the most to the least common
    * balanced suit while their counts differ by more than `diff`; then the
    * final check. True means fewer than two suits are balanced or no two of
    * them differ by more than `diff`.
    */
  method LateBalance(vs: Views, locked: set<Slot>, diff: int, sig: Option<Suit>, tie: Option<Suit>)
    returns (out: Views, ok: bool)
    ensures SameButSuits(vs, out) && Conserved(vs, out)
    ensures Untouched(vs, out, locked, BalancedSuits(sig, tie))
    ensures ok <==> |BalancedSuits(sig, tie)| < 2 || WithinDiff(out, BalancedSuits(sig, tie), diff)
  {
    var ss := BalancedSuits(sig, tie);
    out := vs;
    if |ss| < 2 {
      return out, true;
    }
    var round := 0;
    while round < 120
      invariant SameButSuits(vs, out) && Conserved(vs, out)
      invariant Untouched(vs, out, locked, ss)
      decreases 120 - round
    {
      var c := Tally(out, ss);
      var hi, lo := FirstMax(c), FirstMin(c);
      if c[hi] - c[lo] <= diff {
        SpreadWithin(out, ss, diff);
        return out, true;
      }
      var next, moved := MoveOne(out, locked, ss[hi], ss[lo]);
      if !moved {
        break;
      }
      MoveKeepsUntouched(vs, out, next, locked, ss, ss[hi], ss[lo]);
      SameButSuitsTrans(vs, out, next);
      out := next;
      round := round + 1;
    }
    var c := Tally(out, ss);
    var hi, lo := FirstMax(c), FirstMin(c);
    ok := c[hi] - c[lo] <= diff;
    SpreadWithin(out, ss, diff);
  }

  /** The largest count minus the smallest is within `diff` exactly when every pair of counts is. */
  lemma SpreadWithin(vs: Views, ss: seq<Suit>, diff: int)
    requires |ss| > 0
    ensures var c := Tally(vs, ss);
            c[FirstMax(c)] - c[FirstMin(c)] <= diff <==> WithinDiff(vs, ss, diff)
  {
    var c := Tally(vs, ss);
    var hi, lo := FirstMax(c), FirstMin(c);
    if c[hi] - c[lo] <= diff {
      forall a, b | 0 <= a < |ss| && 0 <= b < |ss|
        ensures SuitTotal(vs, ss[a]) - SuitTotal(vs, ss[b]) <= diff
      {
        assert c[a] <= c[hi] && c[lo] <= c[b];
      }
    } else {
      assert SuitTotal(vs, ss[hi]) - SuitTotal(vs, ss[lo]) > diff;
    }
  }

  /**
    * Within `tolerance` of the average non-tie count, with the average
    * `total / 3` rescaled by 3 so that the test stays on integers.
    */
  ghost predicate NearAverage(vs: Views, ss: seq<Suit>, tolerance: int)
    requires |ss| == 3
  {
    var total := Sum3(vs, ss);
    forall a :: 0 <= a < 3 ==>
      3 * SuitTotal(vs, ss[a]) - total <= 3 * tolerance && total - 3 * SuitTotal(vs, ss[a]) <= 3 * tolerance
  }

  /** The number of cards of the three listed suits. */
  function Sum3(vs: Views, ss: seq<Suit>): nat
    requires |ss| == 3
  {
    SuitTotal(vs, ss[0]) + SuitTotal(vs, ss[1]) + SuitTotal(vs, ss[2])
  }

  /** Where `balance_non_tie_suits` may stop settled: no card of the three suits, or every count near the average. */
  ghost predicate Settled(vs: Views, ss: seq<Suit>, tolerance: int)
  {
    |ss| == 3 && (Sum3(vs, ss) == 0 || NearAverage(vs, ss, tolerance))
  }

  /**
    * `balance_non_tie_suits`: nothing without a tie suit; otherwise up to 160
    * moves between the three other suits, from the one furthest above the
    * average to the one furthest below. `settled` tells that it stopped
    * because no other-suit card remains or every count is within
    * `tolerance` of the average, rather than because no move was possible.
    */
  method BalanceNonTieSuits(vs: Views, tie: Option<Suit>, locked: set<Slot>, tolerance: int)
    returns (out: Views, settled: bool)
    ensures tie.None? ==> out == vs
    ensures SameButSuits(vs, out) && Conserved(vs, out)
    ensures tie.Some? ==> Untouched(vs, out, locked, BalancedSuits(None, tie))
    ensures tie.Some? && settled ==> Settled(out, BalancedSuits(None, tie), tolerance)
  {
    out := vs;
    settled := false;
    if tie.None? {
      return;
    }
    var ss := BalancedSuits(None, tie);
    ThreeOtherSuits(tie.value);
    var round := 0;
    while round < 160
      invariant SameButSuits(vs, out) && Conserved(vs, out)
      invariant Untouched(vs, out, locked, ss)
      decreases 160 - round
    {
      var c := Tally(out, ss);
      var total := c[0] + c[1] + c[2];
      if total == 0 {
        return out, true;
      }
      // `c[s] - target` has the same order as `3 * c[s] - total`.
      var hi, lo := FirstMax(c), FirstMin(c);
      if 3 * c[hi] - total <= 3 * tolerance && total - 3 * c[lo] <= 3 * tolerance {
        assert NearAverage(out, ss, tolerance) by {
          forall a | 0 <= a < 3
            ensures 3 * SuitTotal(out, ss[a]) - total <= 3 * tolerance
            ensures total - 3 * SuitTotal(out, ss[a]) <= 3 * tolerance
          {
            assert c[a] <= c[hi] && c[lo] <= c[a];
          }
        }
        return out, true;
      }
      var next, moved := MoveOne(out, locked, ss[hi], ss[lo]);
      if !moved {
        break;
      }
      MoveKeepsUntouched(vs, out, next, locked, ss, ss[hi], ss[lo]);
      SameButSuitsTrans(vs, out, next);
      out := next;
      round := round + 1;
    }
  }
}

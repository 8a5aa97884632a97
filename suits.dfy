// The card lists the go/waa.py suit rules work on (`RoundView.cards`), the
// counting they do, the S and tie index lists, and the one move they make:
// exchanging the suits of two cards of the same rank.

module Suits {
  import opened Base
  import opened Cards

  /**
    * The card lists of the round views, in shoe order. The suit rules change
    * cards' suits in place; a card never moves from its place, so the place
    * (view, index) names the card, and the source's `id(card)` locks become
    * sets of places.
    */
  type Views = seq<seq<Card>>

  datatype Slot = Slot(k: nat, j: nat)

  predicate IsSlot(vs: Views, s: Slot)
  {
    s.k < |vs| && s.j < |vs[s.k]|
  }

  function CardAt(vs: Views, s: Slot): Card
    requires IsSlot(vs, s)
  {
    vs[s.k][s.j]
  }

  /** Same number of views, each of the same length. */
  predicate SameShape(a: Views, b: Views)
  {
    |a| == |b| && forall k :: 0 <= k < |a| ==> |a[k]| == |b[k]|
  }

  /** Every card keeps its rank, position and colours; only suits may differ. */
  ghost predicate SameButSuits(a: Views, b: Views)
  {
    SameShape(a, b)
    && forall s :: IsSlot(a, s) ==> CardAt(b, s) == CardAt(a, s).(suit := CardAt(b, s).suit)
  }

  /** All cards of the views, in order. */
  function Concat(vs: Views): (cs: seq<Card>)
  {
    if |vs| == 0 then [] else vs[0] + Concat(vs[1..])
  }

  function SuitsOf(cs: seq<Card>): (ss: seq<Suit>)
    ensures |ss| == |cs|
    ensures forall i :: 0 <= i < |cs| ==> ss[i] == cs[i].suit
  {
    seq(|cs|, i requires 0 <= i < |cs| => cs[i].suit)
  }

  /** How many cards of `cs` have suit `s`. */
  function CountSuit(cs: seq<Card>, s: Suit): (n: nat)
    ensures n == multiset(SuitsOf(cs))[s]
  {
    Count(SuitsOf(cs), s)
  }

  /** The `collections.Counter` of suits over every view. */
  function SuitTotal(vs: Views, s: Suit): nat
  {
    CountSuit(Concat(vs), s)
  }

  /** The (rank, suit) faces of every card of the views. */
  function Bag(vs: Views): multiset<(Rank, Suit)>
  {
    multiset(Faces(Concat(vs)))
  }

  // ---- where a card sits in the concatenation ----

  /** The index in `Concat(vs)` of the first card of view `k`. */
  function Offset(vs: Views, k: nat): nat
    requires k <= |vs|
  {
    |Concat(vs[..k])|
  }

  lemma {:induction false} ConcatAppend(a: Views, b: Views)
    ensures Concat(a + b) == Concat(a) + Concat(b)
  {
    if |a| > 0 {
      assert (a + b)[1..] == a[1..] + b;
      ConcatAppend(a[1..], b);
    } else {
      assert a + b == b;
    }
  }

  lemma {:induction false} ConcatSplit(vs: Views, k: nat)
    requires k < |vs|
    ensures Concat(vs) == Concat(vs[..k]) + vs[k] + Concat(vs[k + 1..])
  {
    if k > 0 {
      ConcatSplit(vs[1..], k - 1);
      assert vs[..k][1..] == vs[1..][..k - 1];
      assert vs[1..][k..] == vs[k + 1..];
    }
  }

  /** Changing one card of one view changes one entry of the concatenation. */
  lemma UpdateInConcat(vs: Views, s: Slot, c: Card)
    requires IsSlot(vs, s)
    ensures Offset(vs, s.k) + s.j < |Concat(vs)|
    ensures Concat(vs)[Offset(vs, s.k) + s.j] == CardAt(vs, s)
    ensures Concat(vs[s.k := vs[s.k][s.j := c]]) == Concat(vs)[Offset(vs, s.k) + s.j := c]
  {
    var w := vs[s.k := vs[s.k][s.j := c]];
    ConcatSplit(vs, s.k);
    ConcatSplit(w, s.k);
    assert w[..s.k] == vs[..s.k];
    assert w[s.k + 1..] == vs[s.k + 1..];
  }

  lemma MultisetUpdate<T>(xs: seq<T>, i: nat, x: T)
    requires i < |xs|
    ensures multiset(xs[i := x]) == multiset(xs) - multiset{xs[i]} + multiset{x}
  {
    assert xs == xs[..i] + [xs[i]] + xs[i + 1..];
    assert xs[i := x] == xs[..i] + [x] + xs[i + 1..];
  }

  // ---- one suit written ----

  /** The views with the card at `s` given suit `t`. */
  function SetSuit(vs: Views, s: Slot, t: Suit): (r: Views)
    requires IsSlot(vs, s)
    ensures SameButSuits(vs, r)
    ensures CardAt(r, s).suit == t
    ensures forall q :: IsSlot(vs, q) && q != s ==> CardAt(r, q) == CardAt(vs, q)
  {
    vs[s.k := vs[s.k][s.j := CardAt(vs, s).(suit := t)]]
  }

  /** Writing one suit replaces one face and moves one card between two suit counts. */
  lemma SetSuitCounts(vs: Views, s: Slot, t: Suit)
    requires IsSlot(vs, s)
    ensures Face(CardAt(vs, s)) in Bag(vs)
    ensures Bag(SetSuit(vs, s, t)) == Bag(vs) - multiset{Face(CardAt(vs, s))} + multiset{(CardAt(vs, s).rank, t)}
    ensures forall u :: SuitTotal(SetSuit(vs, s, t), u)
                        == SuitTotal(vs, u) - (if CardAt(vs, s).suit == u then 1 else 0) + (if t == u then 1 else 0)
  {
    var c := CardAt(vs, s).(suit := t);
    UpdateInConcat(vs, s, c);
    var cs := Concat(vs);
    var i := Offset(vs, s.k) + s.j;
    assert Faces(cs[i := c]) == Faces(cs)[i := Face(c)];
    MultisetUpdate(Faces(cs), i, Face(c));
    assert SuitsOf(cs[i := c]) == SuitsOf(cs)[i := t];
    MultisetUpdate(SuitsOf(cs), i, t);
    assert Faces(cs)[i] in multiset(Faces(cs));
  }

  // ---- swap_suits_between_same_rank_cards ----

  /**
    * `swap_suits_between_same_rank_cards`: nothing for cards of different
    * ranks, otherwise the two cards exchange suits.
    */
  function SwapSuits(vs: Views, a: Slot, b: Slot): (r: Views)
    requires IsSlot(vs, a) && IsSlot(vs, b)
    ensures SameButSuits(vs, r)
    ensures CardAt(vs, a).rank != CardAt(vs, b).rank ==> r == vs
    ensures CardAt(vs, a).rank == CardAt(vs, b).rank ==>
              CardAt(r, a).suit == CardAt(vs, b).suit && CardAt(r, b).suit == CardAt(vs, a).suit
    ensures forall q :: IsSlot(vs, q) && q != a && q != b ==> CardAt(r, q) == CardAt(vs, q)
  {
    if CardAt(vs, a).rank != CardAt(vs, b).rank then vs
    else SetSuit(SetSuit(vs, a, CardAt(vs, b).suit), b, CardAt(vs, a).suit)
  }

  /** The exchange keeps every face and every suit count of the shoe. */
  lemma SwapSuitsKeepsCounts(vs: Views, a: Slot, b: Slot)
    requires IsSlot(vs, a) && IsSlot(vs, b)
    ensures Bag(SwapSuits(vs, a, b)) == Bag(vs)
    ensures forall u :: SuitTotal(SwapSuits(vs, a, b), u) == SuitTotal(vs, u)
  {
    if CardAt(vs, a).rank == CardAt(vs, b).rank {
      var ca, cb := CardAt(vs, a), CardAt(vs, b);
      var w := SetSuit(vs, a, cb.suit);
      SetSuitCounts(vs, a, cb.suit);
      SetSuitCounts(w, b, ca.suit);
      assert CardAt(w, b).suit == cb.suit;
      assert CardAt(w, b).rank == ca.rank;
    }
  }

  // ---- the S index list and the tie index list ----

  /** The indices `i >= from` whose next view has result `l`, in increasing order. */
  function Preceding(results: seq<Label>, l: Label, from: nat): (ix: seq<nat>)
    ensures forall i :: i in ix <==> from <= i && i + 1 < |results| && results[i + 1] == l
    ensures forall a :: 0 <= a < |ix| ==> from <= ix[a]
    ensures forall a, b :: 0 <= a < b < |ix| ==> ix[a] < ix[b]
    decreases |results| - from
  {
    if from + 1 >= |results| then []
    else if results[from + 1] == l then [from] + Preceding(results, l, from + 1)
    else Preceding(results, l, from + 1)
  }

  /** `compute_sidx_new`: the views followed by a Banker win. */
  function SIdx(results: seq<Label>): (ix: seq<nat>)
    ensures forall i: nat :: i in ix <==> i + 1 < |results| && IsBankerLabel(results[i + 1])
    ensures forall a, b :: 0 <= a < b < |ix| ==> ix[a] < ix[b]
  {
    Preceding(results, Won(Banker), 0)
  }

  /** The `tie_indices` of `enforce_tie_signal`: the views followed by a tie (`_is_tie_result`). */
  function TieIndices(results: seq<Label>): (ix: seq<nat>)
    ensures forall i: nat :: i in ix <==> i + 1 < |results| && IsTieLabel(results[i + 1])
    ensures forall a, b :: 0 <= a < b < |ix| ==> ix[a] < ix[b]
  {
    Preceding(results, Won(Tie), 0)
  }

  /** A view cannot both precede a Banker win and precede a tie. */
  lemma SIdxAvoidsTies(results: seq<Label>, i: nat)
    ensures !(i in SIdx(results) && i in TieIndices(results))
  {
  }

  // ---- helpers shared by the suit rules ----

  /** Every card of `v` has suit `s`. */
  predicate AllOfSuit(v: seq<Card>, s: Suit)
  {
    forall j :: 0 <= j < |v| ==> v[j].suit == s
  }

  /** Counting `s` up to the length of the list means every card has suit `s`. */
  lemma {:induction false} CountSuitFull(cs: seq<Card>, s: Suit)
    ensures CountSuit(cs, s) == |cs| <==> AllOfSuit(cs, s)
  {
    if |cs| > 0 {
      CountSuitFull(cs[1..], s);
      assert SuitsOf(cs) == [cs[0].suit] + SuitsOf(cs[1..]);
      assert CountSuit(cs[1..], s) <= |cs[1..]|;
      if AllOfSuit(cs[1..], s) && cs[0].suit == s {
        assert AllOfSuit(cs, s) by {
          forall j | 0 <= j < |cs| ensures cs[j].suit == s {
            if j > 0 { assert cs[j] == cs[1..][j - 1]; }
          }
        }
      }
      if AllOfSuit(cs, s) {
        assert AllOfSuit(cs[1..], s) by {
          forall j | 0 <= j < |cs| - 1 ensures cs[1..][j].suit == s {
            assert cs[1..][j] == cs[j + 1];
          }
        }
      }
    }
  }

  /** Slot `a` comes before slot `b` in shoe order. */
  predicate Before(a: Slot, b: Slot)
  {
    a.k < b.k || (a.k == b.k && a.j < b.j)
  }

  /** The suit rules keep every face and every suit count. */
  predicate Conserved(a: Views, b: Views)
  {
    Bag(a) == Bag(b) && forall u :: SuitTotal(a, u) == SuitTotal(b, u)
  }

  lemma SameButSuitsTrans(a: Views, b: Views, c: Views)
    requires SameButSuits(a, b) && SameButSuits(b, c)
    ensures SameButSuits(a, c)
  {
    forall s | IsSlot(a, s)
      ensures CardAt(c, s) == CardAt(a, s).(suit := CardAt(c, s).suit)
    {
      assert IsSlot(b, s);
    }
  }

  /** A swap step inside a rule: the state after it still relates to the rule's input. */
  lemma SwapStep(vs0: Views, vs: Views, a: Slot, b: Slot)
    requires SameButSuits(vs0, vs) && Conserved(vs0, vs)
    requires IsSlot(vs, a) && IsSlot(vs, b)
    ensures SameButSuits(vs0, SwapSuits(vs, a, b)) && Conserved(vs0, SwapSuits(vs, a, b))
  {
    SwapSuitsKeepsCounts(vs, a, b);
    SameButSuitsTrans(vs0, vs, SwapSuits(vs, a, b));
  }
}

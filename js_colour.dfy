// The exchange rule of script.js `autoColorSwap` (`legalSuitPair`, with its
// `samePoint`, `heartCount` and `signalOK`): under the heart signal, a
// signal round holds at least one heart and every other round none.
// `scoreRound` there is the loop of `ColourSwap.ScoreRound`.

module JsColour {
  import opened Base
  import opened Cards
  import Suits
  import opened RoundSlots

  function HeartCount(r: Round): nat
  {
    Suits.CountSuit(r.cards, Heart)
  }

  /** `signalOK`: at least one heart in a signal round, none elsewhere. */
  predicate SignalOK(r: Round, isS: bool)
  {
    if isS then HeartCount(r) >= 1 else HeartCount(r) == 0
  }

  /**
    * `legalSuitPair`: the same point value, and either both hearts or both
    * not, or a heart traded between two signal rounds that each hold at
    * least two hearts and still hold one afterwards.
    */
  predicate LegalSuitPair(rs: seq<Round>, sSet: set<nat>, cA: Card, cB: Card, idxA: nat, idxB: nat)
    requires idxA < |rs| && idxB < |rs|
  {
    CardPoint(cA) == CardPoint(cB)
    && (((cA.suit == Heart) == (cB.suit == Heart))
        || (idxA in sSet && idxB in sSet && HeartCount(rs[idxA]) >= 2 && HeartCount(rs[idxB]) >= 2
            && HeartCount(rs[idxA]) + (if cB.suit == Heart then 1 else 0) - (if cA.suit == Heart then 1 else 0) >= 1
            && HeartCount(rs[idxB]) + (if cA.suit == Heart then 1 else 0) - (if cB.suit == Heart then 1 else 0) >= 1))
  }

  /** Writing one card changes a suit count by what leaves and what comes in. */
  lemma CountSuitPut(cs: seq<Card>, i: nat, c: Card, s: Suit)
    requires i < |cs|
    ensures Suits.CountSuit(cs[i := c], s) + (if cs[i].suit == s then 1 else 0)
            == Suits.CountSuit(cs, s) + (if c.suit == s then 1 else 0)
  {
    assert Suits.SuitsOf(cs[i := c]) == Suits.SuitsOf(cs)[i := c.suit];
  }

  /**
    * A legal exchange between two rounds that meet the heart rule keeps the
    * point value at both places and leaves both rounds meeting the rule.
    */
  lemma LegalPairKeepsSignal(rs: seq<Round>, sSet: set<nat>, a: Place, b: Place)
    requires IsPlace(rs, a) && IsPlace(rs, b)
    requires LegalSuitPair(rs, sSet, CardAt(rs, a), CardAt(rs, b), a.r, b.r)
    requires SignalOK(rs[a.r], a.r in sSet) && SignalOK(rs[b.r], b.r in sSet)
    ensures CardPoint(CardAt(SwapPlaces(rs, a, b), a)) == CardPoint(CardAt(rs, a))
    ensures CardPoint(CardAt(SwapPlaces(rs, a, b), b)) == CardPoint(CardAt(rs, b))
    ensures SignalOK(SwapPlaces(rs, a, b)[a.r], a.r in sSet) && SignalOK(SwapPlaces(rs, a, b)[b.r], b.r in sSet)
  {
    var out := SwapPlaces(rs, a, b);
    var x, y := CardAt(rs, a), CardAt(rs, b);
    SwapPlacesEffect(rs, a, b);
    if a.r == b.r {
      var cs := rs[a.r].cards;
      assert out[a.r].cards == cs[a.c := y][b.c := x];
      CountSuitPut(cs, a.c, y, Heart);
      CountSuitPut(cs[a.c := y], b.c, x, Heart);
      assert HeartCount(out[a.r]) == HeartCount(rs[a.r]);
    } else {
      assert out[a.r].cards == rs[a.r].cards[a.c := y];
      assert out[b.r].cards == rs[b.r].cards[b.c := x];
      CountSuitPut(rs[a.r].cards, a.c, y, Heart);
      CountSuitPut(rs[b.r].cards, b.c, x, Heart);
    }
  }
}

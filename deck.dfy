// Building the eight-deck shoe: go/waa.py and script.js `build_shuffled_deck`
// (shuffle, then number the cards by their final index) and the
// red-zero-signal-test.js variant (number while building, then shuffle).

module Deck {
  import opened Base
  import opened Cards
  import opened Shuffle

  const SHOE_SIZE: nat := 416

  /** The thirteen ranks of one suit in rank order, with the given back/front colour. */
  function SuitRun(s: Suit, col: Option<Color>): (r: seq<Card>)
    ensures |r| == 13
    ensures forall i :: 0 <= i < 13 ==> r[i] == Card(i + 1, s, -1, col, col)
  {
    seq(13, i requires 0 <= i < 13 => Card(i + 1, s, -1, col, col))
  }

  /** One 52-card deck: for each suit in ♠ ♥ ♦ ♣ order, every rank. */
  function Base52(col: Option<Color>): (r: seq<Card>)
    ensures |r| == 52
  {
    SuitRun(Spade, col) + SuitRun(Heart, col) + SuitRun(Diamond, col) + SuitRun(Club, col)
  }

  function Repeat<T>(s: seq<T>, k: nat): (r: seq<T>)
    ensures |r| == k * |s|
  {
    if k == 0 then [] else Repeat(s, k - 1) + s
  }

  function PosOf(c: Card): int
  {
    c.pos
  }

  function BackOf(c: Card): Option<Color>
  {
    c.back
  }

  function Iota(n: nat): (r: seq<int>)
    ensures |r| == n
    ensures forall i :: 0 <= i < n ==> r[i] == i
  {
    seq(n, i requires 0 <= i < n => i)
  }

  // ---- counting faces ----

  lemma FacesAppend(a: seq<Card>, b: seq<Card>)
    ensures Faces(a + b) == Faces(a) + Faces(b)
  {
  }

  lemma {:induction false} RunFaceCount(t: Suit, col: Option<Color>, r: Rank, s: Suit)
    ensures multiset(Faces(SuitRun(t, col)))[(r, s)] == if t == s then 1 else 0
  {
    var fs := Faces(SuitRun(t, col));
    if t != s {
      assert (r, s) !in fs;
    } else {
      var k := r - 1;
      assert fs == fs[..k] + [fs[k]] + fs[k + 1..];
      assert fs[k] == (r, s);
      assert (r, s) !in fs[..k];
      assert (r, s) !in fs[k + 1..];
    }
  }

  /** One deck holds every face exactly once. */
  lemma {:induction false} Base52FaceCount(col: Option<Color>, r: Rank, s: Suit)
    ensures multiset(Faces(Base52(col)))[(r, s)] == 1
  {
    FacesAppend(SuitRun(Spade, col), SuitRun(Heart, col));
    FacesAppend(SuitRun(Spade, col) + SuitRun(Heart, col), SuitRun(Diamond, col));
    FacesAppend(SuitRun(Spade, col) + SuitRun(Heart, col) + SuitRun(Diamond, col), SuitRun(Club, col));
    RunFaceCount(Spade, col, r, s);
    RunFaceCount(Heart, col, r, s);
    RunFaceCount(Diamond, col, r, s);
    RunFaceCount(Club, col, r, s);
  }

  lemma MapAppend<A, B>(f: A -> B, a: seq<A>, b: seq<A>)
    ensures Map(f, a + b) == Map(f, a) + Map(f, b)
  {
  }

  /** `k` copies of `b` hold each projected value `k` times as often as `b` does. */
  lemma {:induction false} RepeatMapCount<A, B>(f: A -> B, b: seq<A>, k: nat, v: B)
    ensures multiset(Map(f, Repeat(b, k)))[v] == k * multiset(Map(f, b))[v]
  {
    if k > 0 {
      RepeatMapCount(f, b, k - 1, v);
      MapAppend(f, Repeat(b, k - 1), b);
      var c := multiset(Map(f, b))[v];
      assert multiset(Map(f, Repeat(b, k)))[v] == multiset(Map(f, Repeat(b, k - 1)))[v] + c;
      assert (k - 1) * c + c == k * c;
    }
  }

  lemma {:induction false} RepeatFaceCount(b: seq<Card>, k: nat, f: (Rank, Suit))
    ensures multiset(Faces(Repeat(b, k)))[f] == k * multiset(Faces(b))[f]
  {
    FacesIsMap(Repeat(b, k));
    FacesIsMap(b);
    RepeatMapCount(Face, b, k, f);
  }

  lemma {:induction false} ConstantCount<T>(s: seq<T>, v: T)
    requires forall k :: 0 <= k < |s| ==> s[k] == v
    ensures multiset(s)[v] == |s|
  {
    if |s| > 0 {
      assert s == s[..|s| - 1] + [s[|s| - 1]];
      ConstantCount(s[..|s| - 1], v);
    }
  }

  lemma FacesReindex(s: seq<Card>)
    ensures Faces(Reindex(s)) == Faces(s)
  {
  }

  lemma FacesIsMap(s: seq<Card>)
    ensures Faces(s) == Map(Face, s)
  {
  }

  /** Faces survive the shuffle: the shuffled cards hold the same faces as the unshuffled ones. */
  lemma ShuffledFaces(s: seq<Card>, pick: nat -> nat)
    requires ValidPick(pick)
    ensures multiset(Faces(Shuffled(s, pick))) == multiset(Faces(s))
  {
    ShuffledCommutesWithMap(Face, s, pick);
    FacesIsMap(s);
    FacesIsMap(Shuffled(s, pick));
  }

  // ---- go/waa.py ----

  /**
    * go/waa.py `build_shuffled_deck`: eight copies of the 52 faces, shuffled
    * by the draws `pick`, then numbered by final index. Every face appears
    * exactly eight times and no card has a colour yet.
    */
  method BuildShuffledDeck(pick: nat -> nat) returns (deck: seq<Card>)
    requires ValidPick(pick)
    ensures deck == Reindex(Shuffled(Repeat(Base52(None), NUM_DECKS), pick))
    ensures |deck| == SHOE_SIZE
    ensures forall i :: 0 <= i < |deck| ==> deck[i].pos == i && deck[i].color == None
    ensures forall r: Rank, s: Suit :: multiset(Faces(deck))[(r, s)] == NUM_DECKS
  {
    var base := Base52(None);
    var cards: seq<Card> := [];
    for k := 0 to NUM_DECKS
      invariant cards == Repeat(base, k)
    {
      cards := cards + base;
    }
    var a := new Card[|cards|](i requires 0 <= i < |cards| => cards[i]);
    assert a[..] == cards;
    ShuffleInPlace(a, pick);
    ghost var shuffled := a[..];
    for i := 0 to a.Length
      invariant forall j :: 0 <= j < i ==> a[j] == shuffled[j].(pos := j)
      invariant forall j :: i <= j < a.Length ==> a[j] == shuffled[j]
    {
      a[i] := a[i].(pos := i);
    }
    deck := a[..];
    UnshuffledFacts(base, cards, pick, deck);
  }

  lemma UnshuffledFacts(base: seq<Card>, cards: seq<Card>, pick: nat -> nat, deck: seq<Card>)
    requires base == Base52(None) && cards == Repeat(base, NUM_DECKS)
    requires ValidPick(pick) && deck == Reindex(Shuffled(cards, pick))
    ensures forall i :: 0 <= i < |deck| ==> deck[i].color == None
    ensures forall r: Rank, s: Suit :: multiset(Faces(deck))[(r, s)] == NUM_DECKS
  {
    var sh := Shuffled(cards, pick);
    forall r: Rank, s: Suit
      ensures multiset(Faces(deck))[(r, s)] == NUM_DECKS
    {
      FacesReindex(sh);
      ShuffledFaces(cards, pick);
      RepeatFaceCount(base, NUM_DECKS, (r, s));
      Base52FaceCount(None, r, s);
    }
    forall i | 0 <= i < |deck|
      ensures deck[i].color == None
    {
      ShuffledCommutesWithMap(ColorOf, cards, pick);
      assert Map(ColorOf, sh)[i] in multiset(Map(ColorOf, cards));
      var j :| 0 <= j < |cards| && Map(ColorOf, cards)[j] == Map(ColorOf, sh)[i];
      RepeatMember(base, NUM_DECKS, j);
    }
  }

  function ColorOf(c: Card): Option<Color>
  {
    c.color
  }

  lemma {:induction false} RepeatMember<T>(b: seq<T>, k: nat, j: nat)
    requires j < |Repeat(b, k)|
    ensures Repeat(b, k)[j] in b
  {
    if j < |Repeat(b, k - 1)| {
      RepeatMember(b, k - 1, j);
    } else {
      assert Repeat(b, k)[j] == b[j - |Repeat(b, k - 1)|];
    }
  }

  // ---- script.js ----

  /**
    * script.js `build_shuffled_deck`: four times a red-backed deck followed
    * by a blue-backed one (front colour equal to the back), shuffled, then
    * numbered by final index. Every face appears eight times and exactly
    * half of the shoe has a red back.
    */
  method BuildBackedDeck(pick: nat -> nat) returns (deck: seq<Card>)
    requires ValidPick(pick)
    ensures deck == Reindex(Shuffled(Repeat(Base52(Some(Red)) + Base52(Some(Black)), 4), pick))
    ensures |deck| == SHOE_SIZE
    ensures forall i :: 0 <= i < |deck| ==> deck[i].pos == i && deck[i].color == deck[i].back != None
    ensures forall r: Rank, s: Suit :: multiset(Faces(deck))[(r, s)] == NUM_DECKS
    ensures multiset(Map(BackOf, deck))[Some(Red)] == SHOE_SIZE / 2
  {
    var batch := Base52(Some(Red)) + Base52(Some(Black));
    var cards: seq<Card> := [];
    for k := 0 to 4
      invariant cards == Repeat(batch, k)
    {
      cards := cards + Base52(Some(Red));
      cards := cards + Base52(Some(Black));
      assert cards == Repeat(batch, k) + batch;
    }
    var a := new Card[|cards|](i requires 0 <= i < |cards| => cards[i]);
    assert a[..] == cards;
    ShuffleInPlace(a, pick);
    ghost var shuffled := a[..];
    for i := 0 to a.Length
      invariant forall j :: 0 <= j < i ==> a[j] == shuffled[j].(pos := j)
      invariant forall j :: i <= j < a.Length ==> a[j] == shuffled[j]
    {
      a[i] := a[i].(pos := i);
    }
    deck := a[..];
    BackedFaces(batch, cards, pick, deck);
    BackedBacks(batch, cards, pick, deck);
  }

  lemma BackedFaces(batch: seq<Card>, cards: seq<Card>, pick: nat -> nat, deck: seq<Card>)
    requires batch == Base52(Some(Red)) + Base52(Some(Black)) && cards == Repeat(batch, 4)
    requires ValidPick(pick) && deck == Reindex(Shuffled(cards, pick))
    ensures forall r: Rank, s: Suit :: multiset(Faces(deck))[(r, s)] == NUM_DECKS
  {
    forall r: Rank, s: Suit
      ensures multiset(Faces(deck))[(r, s)] == NUM_DECKS
    {
      FacesReindex(Shuffled(cards, pick));
      ShuffledFaces(cards, pick);
      RepeatFaceCount(batch, 4, (r, s));
      FacesAppend(Base52(Some(Red)), Base52(Some(Black)));
      Base52FaceCount(Some(Red), r, s);
      Base52FaceCount(Some(Black), r, s);
    }
  }

  lemma BackedBacks(batch: seq<Card>, cards: seq<Card>, pick: nat -> nat, deck: seq<Card>)
    requires batch == Base52(Some(Red)) + Base52(Some(Black)) && cards == Repeat(batch, 4)
    requires ValidPick(pick) && deck == Reindex(Shuffled(cards, pick))
    ensures forall i :: 0 <= i < |deck| ==> deck[i].color == deck[i].back != None
    ensures multiset(Map(BackOf, deck))[Some(Red)] == SHOE_SIZE / 2
  {
    var sh := Shuffled(cards, pick);
    assert Map(BackOf, deck) == Map(BackOf, sh);
    ShuffledCommutesWithMap(BackOf, cards, pick);
    BatchRedBacks(batch);
    RepeatMapCount(BackOf, batch, 4, Some(Red));
    BackedColors(batch, cards, pick, deck);
  }

  lemma BackedColors(batch: seq<Card>, cards: seq<Card>, pick: nat -> nat, deck: seq<Card>)
    requires batch == Base52(Some(Red)) + Base52(Some(Black)) && cards == Repeat(batch, 4)
    requires ValidPick(pick) && deck == Reindex(Shuffled(cards, pick))
    ensures forall i :: 0 <= i < |deck| ==> deck[i].color == deck[i].back != None
  {
    BatchColoured(batch);
    ShuffledLabels(batch, 4, cards, pick, Shuffled(cards, pick), deck);
  }

  /** Every card of the red and blue batch has its front colour equal to its back, and one. */
  lemma BatchColoured(batch: seq<Card>)
    requires batch == Base52(Some(Red)) + Base52(Some(Black))
    ensures forall c :: c in batch ==> c.color == c.back != None
  {
    forall c | c in batch
      ensures c.color == c.back != None
    {
      var j :| 0 <= j < |batch| && batch[j] == c;
      if j < 52 {
        assert c in Base52(Some(Red));
      } else {
        assert c == Base52(Some(Black))[j - 52];
      }
    }
  }

  /** Such colours survive repeating, shuffling and renumbering. */
  lemma ShuffledLabels(batch: seq<Card>, k: nat, cards: seq<Card>, pick: nat -> nat, sh: seq<Card>, deck: seq<Card>)
    requires forall c :: c in batch ==> c.color == c.back != None
    requires cards == Repeat(batch, k) && ValidPick(pick) && sh == Shuffled(cards, pick) && deck == Reindex(sh)
    ensures forall i :: 0 <= i < |deck| ==> deck[i].color == deck[i].back != None
  {
    ShuffledIsPermutation(cards, pick);
    forall i | 0 <= i < |deck|
      ensures deck[i].color == deck[i].back != None
    {
      assert sh[i] in multiset(cards);
      var j :| 0 <= j < |cards| && cards[j] == sh[i];
      RepeatMember(batch, k, j);
    }
  }

  /** One red-backed and one blue-backed deck: 52 red backs. */
  lemma BatchRedBacks(batch: seq<Card>)
    requires batch == Base52(Some(Red)) + Base52(Some(Black))
    ensures multiset(Map(BackOf, batch))[Some(Red)] == 52
  {
    MapAppend(BackOf, Base52(Some(Red)), Base52(Some(Black)));
    ConstantCount(Map(BackOf, Base52(Some(Red))), Some(Red));
    assert Some(Red) !in Map(BackOf, Base52(Some(Black)));
  }

  // ---- red-zero-signal-test.js ----

  lemma ReindexSnoc(x: seq<Card>, y: Card)
    ensures Reindex(x + [y]) == Reindex(x) + [y.(pos := |x|)]
  {
  }

  lemma Base52At(col: Option<Color>, si: nat, ri: nat)
    requires si < 4 && ri < 13
    ensures Base52(col)[13 * si + ri] == Card(RANKS[ri], SUITS[si], -1, col, col)
  {
    var runs := [SuitRun(Spade, col), SuitRun(Heart, col), SuitRun(Diamond, col), SuitRun(Club, col)];
    assert Base52(col) == runs[0] + runs[1] + runs[2] + runs[3];
  }

  lemma PositionsOfReindex(s: seq<Card>)
    ensures Map(PosOf, Reindex(s)) == Iota(|s|)
  {
  }

  /**
    * red-zero-signal-test.js `build_shuffled_deck`: each card is numbered by
    * the count of cards before it as the eight decks are laid out, and the
    * shoe is shuffled afterwards, so `pos` no longer matches the index; the
    * positions are still 0..415, each exactly once.
    */
  method BuildDeckNumberedFirst(pick: nat -> nat) returns (deck: seq<Card>)
    requires ValidPick(pick)
    ensures deck == Shuffled(Reindex(Repeat(Base52(None), NUM_DECKS)), pick)
    ensures |deck| == SHOE_SIZE
    ensures forall r: Rank, s: Suit :: multiset(Faces(deck))[(r, s)] == NUM_DECKS
    ensures multiset(Map(PosOf, deck)) == multiset(Iota(SHOE_SIZE))
    ensures DistinctPositions(deck)
  {
    var base := Base52(None);
    var cards: seq<Card> := [];
    for deckNum := 0 to NUM_DECKS
      invariant cards == Reindex(Repeat(base, deckNum))
    {
      for si := 0 to 4
        invariant cards == Reindex(Repeat(base, deckNum) + base[..13 * si])
      {
        for ri := 0 to 13
          invariant cards == Reindex(Repeat(base, deckNum) + base[..13 * si + ri])
        {
          Base52At(None, si, ri);
          ReindexSnoc(Repeat(base, deckNum) + base[..13 * si + ri], base[13 * si + ri]);
          assert base[..13 * si + ri + 1] == base[..13 * si + ri] + [base[13 * si + ri]];
          cards := cards + [NewCard(RANKS[ri], SUITS[si], |cards|)];
        }
      }
      assert base[..52] == base;
    }
    var a := new Card[|cards|](i requires 0 <= i < |cards| => cards[i]);
    assert a[..] == cards;
    ShuffleInPlace(a, pick);
    deck := a[..];
    NumberedFirstFacts(base, cards, pick, deck);
  }

  lemma NumberedFirstFacts(base: seq<Card>, cards: seq<Card>, pick: nat -> nat, deck: seq<Card>)
    requires base == Base52(None) && cards == Reindex(Repeat(base, NUM_DECKS))
    requires ValidPick(pick) && deck == Shuffled(cards, pick)
    ensures forall r: Rank, s: Suit :: multiset(Faces(deck))[(r, s)] == NUM_DECKS
    ensures multiset(Map(PosOf, deck)) == multiset(Iota(SHOE_SIZE))
    ensures DistinctPositions(deck)
  {
    NumberedFaces(base, cards, pick, deck);
    NumberedPositions(Repeat(base, NUM_DECKS), cards, pick, deck);
  }

  lemma NumberedFaces(base: seq<Card>, cards: seq<Card>, pick: nat -> nat, deck: seq<Card>)
    requires base == Base52(None) && cards == Reindex(Repeat(base, NUM_DECKS))
    requires ValidPick(pick) && deck == Shuffled(cards, pick)
    ensures forall r: Rank, s: Suit :: multiset(Faces(deck))[(r, s)] == NUM_DECKS
  {
    forall r: Rank, s: Suit
      ensures multiset(Faces(deck))[(r, s)] == NUM_DECKS
    {
      ShuffledFaces(cards, pick);
      FacesReindex(Repeat(base, NUM_DECKS));
      RepeatFaceCount(base, NUM_DECKS, (r, s));
      Base52FaceCount(None, r, s);
    }
  }

  /** Numbering before the shuffle leaves every position once in the shuffled deck. */
  lemma NumberedPositions(laid: seq<Card>, cards: seq<Card>, pick: nat -> nat, deck: seq<Card>)
    requires |laid| == SHOE_SIZE && cards == Reindex(laid)
    requires ValidPick(pick) && deck == Shuffled(cards, pick)
    ensures multiset(Map(PosOf, deck)) == multiset(Iota(SHOE_SIZE))
    ensures DistinctPositions(deck)
  {
    PositionsOfReindex(laid);
    ShuffledCommutesWithMap(PosOf, cards, pick);
    ShuffledKeepsDistinct(Map(PosOf, cards), pick);
    var ps := Map(PosOf, deck);
    assert Distinct(ps);
    forall i, j | 0 <= i < j < |deck|
      ensures deck[i].pos != deck[j].pos
    {
      assert ps[i] != ps[j];
    }
  }
}

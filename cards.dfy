// Cards, faces and round records shared by the Python engine and the JavaScript ports.

module Cards {
  import opened Base

  datatype Suit = Spade | Heart | Diamond | Club

  /** The suit order every source file iterates in: ♠ ♥ ♦ ♣. */
  const SUITS: seq<Suit> := [Spade, Heart, Diamond, Club]

  /** A rank: 1 is the ace, 2..10 the pip cards, 11 J, 12 Q, 13 K. */
  type Rank = r: int | 1 <= r <= 13 witness 1

  /** The rank order A, 2, ..., 9, 10, J, Q, K. */
  const RANKS: seq<Rank> := [1, 2, 3, 4, 5, 6, 7, 8, 9, 10, 11, 12, 13]

  /** Eight 52-card decks form one shoe. */
  const NUM_DECKS: nat := 8

  datatype Color = Red | Black

  /**
    * A physical card. `pos` is its index in the shoe it was dealt from,
    * `color` the front colour assigned by the colour rule, `back` the
    * back colour of the JavaScript decks.
    */
  datatype Card = Card(rank: Rank, suit: Suit, pos: int, color: Option<Color>, back: Option<Color>)

  /** A fresh card: no colour assigned yet. */
  function NewCard(r: Rank, s: Suit, pos: int): Card
  {
    Card(r, s, pos, None, None)
  }

  /** Baccarat value of a rank: the ace counts 1, 2..9 their face, 10/J/Q/K zero. */
  function Point(r: Rank): (p: nat)
    ensures p <= 9
    ensures p == 0 <==> r >= 10
    ensures 1 <= r <= 9 ==> p == r
  {
    if r >= 10 then 0 else r
  }

  function CardPoint(c: Card): nat
  {
    Point(c.rank)
  }

  /** The points of a card sequence, the only thing the round engine reads. */
  function Points(d: seq<Card>): (ps: seq<nat>)
    ensures |ps| == |d|
    ensures forall i :: 0 <= i < |d| ==> ps[i] == CardPoint(d[i])
  {
    seq(|d|, i requires 0 <= i < |d| => CardPoint(d[i]))
  }

  /** The JavaScript `clone(i)` of every card: the same card renumbered with its index. */
  function Reindex(s: seq<Card>): (r: seq<Card>)
    ensures |r| == |s|
    ensures forall i :: 0 <= i < |s| ==> r[i] == s[i].(pos := i)
  {
    seq(|s|, i requires 0 <= i < |s| => s[i].(pos := i))
  }

  /** go/waa.py's temporary copies `Card(c.rank, c.suit, i)`: same face, index as position, no colour. */
  function Relabel(s: seq<Card>): (r: seq<Card>)
    ensures |r| == |s|
    ensures forall i :: 0 <= i < |s| ==> r[i] == NewCard(s[i].rank, s[i].suit, i)
  {
    seq(|s|, i requires 0 <= i < |s| => NewCard(s[i].rank, s[i].suit, i))
  }

  /** Renumbered copies deal exactly as the originals: only points are read. */
  lemma PointsOfCopies(s: seq<Card>)
    ensures Points(Reindex(s)) == Points(s)
    ensures Points(Relabel(s)) == Points(s)
  {
  }

  predicate IsZero(c: Card)
  {
    CardPoint(c) == 0
  }

  predicate IsRedSuit(s: Suit)
  {
    s == Heart || s == Diamond
  }

  /** A zero-point card (10, J, Q, K) of a red suit. */
  predicate IsRedZero(c: Card)
  {
    IsZero(c) && IsRedSuit(c.suit)
  }

  /** The red zeros are exactly the 10, J, Q and K of hearts and diamonds. */
  lemma RedZeroFaces(c: Card)
    ensures IsRedZero(c) <==> c.rank >= 10 && (c.suit == Heart || c.suit == Diamond)
  {
  }

  /** The (rank, suit) face of a card, ignoring position and colours. */
  function Face(c: Card): (Rank, Suit)
  {
    (c.rank, c.suit)
  }

  function Faces(cs: seq<Card>): (fs: seq<(Rank, Suit)>)
    ensures |fs| == |cs|
    ensures forall i :: 0 <= i < |cs| ==> fs[i] == Face(cs[i])
  {
    seq(|cs|, i requires 0 <= i < |cs| => Face(cs[i]))
  }

  function Positions(cs: seq<Card>): (ps: set<int>)
    ensures forall c :: c in cs ==> c.pos in ps
    ensures forall p :: p in ps ==> exists c :: c in cs && c.pos == p
  {
    set c | c in cs :: c.pos
  }

  /** No two cards of `cs` share a position. */
  predicate DistinctPositions(cs: seq<Card>)
  {
    forall i, j :: 0 <= i < j < |cs| ==> cs[i].pos != cs[j].pos
  }

  function RankName(r: Rank): string
  {
    ["A", "2", "3", "4", "5", "6", "7", "8", "9", "10", "J", "Q", "K"][r - 1]
  }

  function SuitSymbol(s: Suit): string
  {
    match s
    case Spade => "♠"
    case Heart => "♥"
    case Diamond => "♦"
    case Club => "♣"
  }

  /** The short face text `rank + suit`, such as "10♦". */
  function Short(c: Card): string
  {
    RankName(c.rank) + SuitSymbol(c.suit)
  }

  function Shorts(cs: seq<Card>): (ss: seq<string>)
    ensures |ss| == |cs|
    ensures forall i :: 0 <= i < |cs| ==> ss[i] == Short(cs[i])
  {
    seq(|cs|, i requires 0 <= i < |cs| => Short(cs[i]))
  }

  datatype Outcome = Player | Banker | Tie

  /** The round outcome: 和 on equal totals, else 閒 when Player's total is higher, else 莊. */
  function OutcomeOf(p: int, b: int): Outcome
  {
    if p == b then Tie else if p > b then Player else Banker
  }

  /**
    * The `result` field of a round record. Rounds dealt by the engine carry
    * an outcome; the JavaScript residue round carries '殘牌', and a JavaScript
    * result overwritten from a failed replay is `null`.
    */
  datatype Label = Won(outcome: Outcome) | Residue | Missing

  predicate IsTieLabel(l: Label)
  {
    l == Won(Tie)
  }

  predicate IsBankerLabel(l: Label)
  {
    l == Won(Banker)
  }

  /** A round's `start_index`; `Undefined` where the source reads `.pos` of an array. */
  datatype Start = At(index: int) | Undefined

  datatype Segment = NoSegment | SegA | SegB | SegC

  datatype Round = Round(
    start: Start,
    cards: seq<Card>,
    result: Label,
    sensitive: bool,
    segment: Segment,
    isT: bool,
    swapped: bool)

  /** A round record as the engine returns it: no segment, no flags. */
  function Plain(start: Start, cards: seq<Card>, result: Label, sensitive: bool): Round
  {
    Round(start, cards, result, sensitive, NoSegment, false, false)
  }

  /** All cards of a list of rounds, in order. */
  function Flatten(rs: seq<Round>): (cs: seq<Card>)
    ensures |rs| == 0 ==> cs == []
  {
    if |rs| == 0 then [] else rs[0].cards + Flatten(rs[1..])
  }

  lemma FlattenCons(r: Round, rest: seq<Round>)
    ensures Flatten([r] + rest) == r.cards + Flatten(rest)
  {
    assert ([r] + rest)[1..] == rest;
  }

  /** Flattening distributes over concatenation. */
  lemma {:induction false} FlattenConcat(xs: seq<Round>, ys: seq<Round>)
    ensures Flatten(xs + ys) == Flatten(xs) + Flatten(ys)
  {
    if |xs| > 0 {
      assert (xs + ys)[1..] == xs[1..] + ys;
      FlattenConcat(xs[1..], ys);
    } else {
      assert xs + ys == ys;
    }
  }

  /** A round's `start_index` as a number, -1 where it is undefined. */
  function StartIndex(r: Round): int
  {
    if r.start.At? then r.start.index else -1
  }
}

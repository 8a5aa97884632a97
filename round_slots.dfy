// Cards named by where they sit in a list of round records: round `r`,
// card `c`. The JavaScript rule passes move whole card objects between
// rounds (`rounds[r1].cards[c1] <-> rounds[r2].cards[c2]`); a card object is
// found again by identity, which the model takes as value equality over
// pairwise-different cards.

module RoundSlots {
  import opened Base
  import opened Cards

  datatype Place = Place(r: nat, c: nat)

  predicate IsPlace(rs: seq<Round>, p: Place)
  {
    p.r < |rs| && p.c < |rs[p.r].cards|
  }

  function CardAt(rs: seq<Round>, p: Place): Card
    requires IsPlace(rs, p)
  {
    rs[p.r].cards[p.c]
  }

  /** The same rounds with the same fields and card counts; only the cards may differ. */
  predicate SameShape(a: seq<Round>, b: seq<Round>)
  {
    |a| == |b|
    && forall k :: 0 <= k < |a| ==> |a[k].cards| == |b[k].cards| && a[k].(cards := b[k].cards) == b[k]
  }

  lemma SameShapeTrans(a: seq<Round>, b: seq<Round>, c: seq<Round>)
    requires SameShape(a, b) && SameShape(b, c)
    ensures SameShape(a, c)
  {
    forall k | 0 <= k < |a|
      ensures |a[k].cards| == |c[k].cards| && a[k].(cards := c[k].cards) == c[k]
    {
      assert a[k].(cards := b[k].cards) == b[k];
      assert b[k].(cards := c[k].cards) == c[k];
    }
  }

  /** Every place holds a different card: card objects are distinct. */
  ghost predicate UniqueCards(rs: seq<Round>)
  {
    forall p, q :: IsPlace(rs, p) && IsPlace(rs, q) && p != q ==> CardAt(rs, p) != CardAt(rs, q)
  }

  /** Place `p` now holds `card`. */
  function Put(rs: seq<Round>, p: Place, card: Card): (out: seq<Round>)
    requires IsPlace(rs, p)
    ensures SameShape(rs, out)
    ensures CardAt(out, p) == card
    ensures forall q :: IsPlace(rs, q) && q != p ==> CardAt(out, q) == CardAt(rs, q)
  {
    rs[p.r := rs[p.r].(cards := rs[p.r].cards[p.c := card])]
  }

  /** The cards at `a` and `b` trade places. */
  function SwapPlaces(rs: seq<Round>, a: Place, b: Place): (out: seq<Round>)
    requires IsPlace(rs, a) && IsPlace(rs, b)
  {
    Put(Put(rs, a, CardAt(rs, b)), b, CardAt(rs, a))
  }

  /**
    * The exchange moves exactly two cards: the one at `a` is now at `b` and
    * the other way round, every other place keeps its card, and nothing but
    * cards changes.
    */
  lemma SwapPlacesEffect(rs: seq<Round>, a: Place, b: Place)
    requires IsPlace(rs, a) && IsPlace(rs, b)
    ensures SameShape(rs, SwapPlaces(rs, a, b))
    ensures CardAt(SwapPlaces(rs, a, b), a) == CardAt(rs, b)
    ensures CardAt(SwapPlaces(rs, a, b), b) == CardAt(rs, a)
    ensures forall q :: IsPlace(rs, q) && q != a && q != b ==> CardAt(SwapPlaces(rs, a, b), q) == CardAt(rs, q)
  {
    var mid := Put(rs, a, CardAt(rs, b));
    SameShapeTrans(rs, mid, SwapPlaces(rs, a, b));
  }

  /** Flattening around round `k`. */
  lemma FlattenAround(rs: seq<Round>, k: nat)
    requires k < |rs|
    ensures Flatten(rs) == Flatten(rs[..k]) + rs[k].cards + Flatten(rs[k + 1..])
  {
    var pre, r, post := rs[..k], rs[k], rs[k + 1..];
    assert rs == pre + ([r] + post) by {
      SplitAround(rs, k);
    }
    FlattenConcat(pre, [r] + post);
    FlattenCons(r, post);
  }

  /** Writing one place trades one card of the flattened deck for another. */
  lemma PutMultiset(rs: seq<Round>, p: Place, card: Card)
    requires IsPlace(rs, p)
    ensures multiset(Flatten(Put(rs, p, card)))
            == multiset(Flatten(rs)) - multiset{CardAt(rs, p)} + multiset{card}
  {
    var out := Put(rs, p, card);
    var cs := rs[p.r].cards;
    FlattenAround(rs, p.r);
    FlattenAround(out, p.r);
    assert out[..p.r] == rs[..p.r];
    assert out[p.r + 1..] == rs[p.r + 1..];
    assert out[p.r].cards == cs[p.c := card];
    BagPut(Flatten(rs[..p.r]), cs, Flatten(rs[p.r + 1..]), p.c, card);
  }

  /** Writing one element of the middle piece trades one element of the whole bag. */
  lemma BagPut<T>(a: seq<T>, cs: seq<T>, b: seq<T>, i: nat, x: T)
    requires i < |cs|
    ensures multiset(a + cs[i := x] + b) == multiset(a + cs + b) - multiset{cs[i]} + multiset{x}
  {
    var l, r := cs[..i], cs[i + 1..];
    assert cs == l + [cs[i]] + r;
    assert cs[i := x] == l + [x] + r;
    assert multiset(a + cs + b) == multiset(a) + multiset(l) + multiset{cs[i]} + multiset(r) + multiset(b);
    assert multiset(a + cs[i := x] + b) == multiset(a) + multiset(l) + multiset{x} + multiset(r) + multiset(b);
  }

  /** The exchange keeps the multiset of cards. */
  lemma SwapPlacesMultiset(rs: seq<Round>, a: Place, b: Place)
    requires IsPlace(rs, a) && IsPlace(rs, b)
    ensures multiset(Flatten(SwapPlaces(rs, a, b))) == multiset(Flatten(rs))
  {
    var x, y := CardAt(rs, a), CardAt(rs, b);
    var m := multiset(Flatten(rs));
    var mid := Put(rs, a, y);
    var m1 := multiset(Flatten(mid));
    assert m1 == m - multiset{x} + multiset{y} by {
      PutMultiset(rs, a, y);
    }
    assert multiset(Flatten(SwapPlaces(rs, a, b))) == m1 - multiset{y} + multiset{x} by {
      assert CardAt(mid, b) == y;
      PutMultiset(mid, b, x);
    }
    assert x in m by {
      InFlatten(rs, a);
    }
    BagTrade(m, m1, multiset(Flatten(SwapPlaces(rs, a, b))), x, y);
  }

  /** Trading `x` for `y` and back gives the bag started with. */
  lemma BagTrade<T>(m: multiset<T>, m1: multiset<T>, m2: multiset<T>, x: T, y: T)
    requires x in m && m1 == m - multiset{x} + multiset{y} && m2 == m1 - multiset{y} + multiset{x}
    ensures m2 == m
  {
    assert m1 - multiset{y} == m - multiset{x};
  }

  /** A card at a place is a card of the flattened deck. */
  lemma InFlatten(rs: seq<Round>, p: Place)
    requires IsPlace(rs, p)
    ensures CardAt(rs, p) in multiset(Flatten(rs))
  {
    FlattenAround(rs, p.r);
    assert CardAt(rs, p) in rs[p.r].cards;
  }

  /** A card of the flattened deck sits at some place. */
  lemma {:induction false} PlaceOf(rs: seq<Round>, card: Card) returns (p: Place)
    requires card in Flatten(rs)
    ensures IsPlace(rs, p) && CardAt(rs, p) == card
  {
    assert |rs| > 0;
    if card in rs[0].cards {
      var c :| 0 <= c < |rs[0].cards| && rs[0].cards[c] == card;
      p := Place(0, c);
    } else {
      var q := PlaceOf(rs[1..], card);
      p := Place(q.r + 1, q.c);
    }
  }

  /** The exchange keeps all cards distinct. */
  lemma SwapPlacesUnique(rs: seq<Round>, a: Place, b: Place)
    requires IsPlace(rs, a) && IsPlace(rs, b) && UniqueCards(rs)
    ensures UniqueCards(SwapPlaces(rs, a, b))
  {
    var out := SwapPlaces(rs, a, b);
    SwapPlacesEffect(rs, a, b);
    forall p, q | IsPlace(out, p) && IsPlace(out, q) && p != q
      ensures CardAt(out, p) != CardAt(out, q)
    {
      var p' := if p == a then b else if p == b then a else p;
      var q' := if q == a then b else if q == b then a else q;
      assert CardAt(out, p) == CardAt(rs, p');
      assert CardAt(out, q) == CardAt(rs, q');
    }
  }

  // ---- finding a card by identity (`Array.prototype.indexOf`) ----

  /** `cs.indexOf(card)`: the first index holding it, or -1. */
  function IndexOf(cs: seq<Card>, card: Card): (n: int)
    ensures -1 <= n < |cs|
    ensures n == -1 <==> card !in cs
    ensures n >= 0 ==> cs[n] == card && card !in cs[..n]
  {
    if |cs| == 0 then -1
    else if cs[0] == card then 0
    else
      var t := IndexOf(cs[1..], card);
      assert cs[1..][..(if t < 0 then 0 else t)] == cs[1..(if t < 0 then 1 else t + 1)];
      if t == -1 then -1 else t + 1
  }

  /** The first round from `i` on that holds `card`, and its index there. */
  function LocateFrom(rs: seq<Round>, card: Card, i: nat): (l: Option<Place>)
    requires i <= |rs|
    decreases |rs| - i
  {
    if i == |rs| then None
    else if card in rs[i].cards then Some(Place(i, IndexOf(rs[i].cards, card)))
    else LocateFrom(rs, card, i + 1)
  }

  function Locate(rs: seq<Round>, card: Card): Option<Place>
  {
    LocateFrom(rs, card, 0)
  }

  /**
    * Where the search stops: either nowhere, when no round from `i` on holds
    * the card, or at a place holding it.
    */
  lemma {:induction false} LocateFromFound(rs: seq<Round>, card: Card, i: nat)
    requires i <= |rs|
    ensures LocateFrom(rs, card, i).None? <==> forall k :: i <= k < |rs| ==> card !in rs[k].cards
    ensures LocateFrom(rs, card, i).Some? ==>
              IsPlace(rs, LocateFrom(rs, card, i).value) && CardAt(rs, LocateFrom(rs, card, i).value) == card
    decreases |rs| - i
  {
    if i < |rs| && card !in rs[i].cards {
      LocateFromFound(rs, card, i + 1);
    }
  }

  /** With distinct cards, the search finds each card exactly where it is. */
  lemma LocateUnique(rs: seq<Round>, p: Place)
    requires IsPlace(rs, p) && UniqueCards(rs)
    ensures Locate(rs, CardAt(rs, p)) == Some(p)
  {
    var card := CardAt(rs, p);
    LocateFromFound(rs, card, 0);
    var l := Locate(rs, card).value;
    assert CardAt(rs, l) == card;
  }

  /** A card of the flattened deck of distinct cards is found where it is. */
  lemma LocateInDeck(rs: seq<Round>, card: Card) returns (p: Place)
    requires card in Flatten(rs) && UniqueCards(rs)
    ensures IsPlace(rs, p) && CardAt(rs, p) == card
    ensures Locate(rs, card) == Some(p)
  {
    p := PlaceOf(rs, card);
    LocateUnique(rs, p);
  }

  /** The card at `p` before an exchange of `a` and `b`. */
  function Source(p: Place, a: Place, b: Place): Place
  {
    if p == a then b else if p == b then a else p
  }
}

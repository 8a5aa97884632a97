// script.js: the suit rules that move card objects between rounds —
// `swap_cards_in_rounds`, `enforce_tie_signal_combined`,
// `distribute_signals_evenly` and the `apply_combined_rules_internal` that
// chains them. Rounds are values; a pass returns the rounds it leaves.

module JsRules {
  import opened Base
  import opened Cards
  import opened JsSegments
  import opened RoundSlots

  // ---- swap_cards_in_rounds ----

  /**
    * `swap_cards_in_rounds`: find each card's first round and index, then
    * exchange the two entries; when either card is missing, nothing
    * changes.
    */
  method SwapCardsInRounds(rs: seq<Round>, card1: Card, card2: Card) returns (out: seq<Round>)
    ensures Locate(rs, card1).None? || Locate(rs, card2).None? ==> out == rs
    ensures Locate(rs, card1).Some? && Locate(rs, card2).Some? ==>
              IsPlace(rs, Locate(rs, card1).value) && IsPlace(rs, Locate(rs, card2).value)
              && out == SwapPlaces(rs, Locate(rs, card1).value, Locate(rs, card2).value)
    ensures multiset(Flatten(out)) == multiset(Flatten(rs))
  {
    var info1: Option<Place> := None;
    var info2: Option<Place> := None;
    var i := 0;
    while i < |rs| && (info1.None? || info2.None?)
      invariant i <= |rs|
      invariant info1.None? ==> Locate(rs, card1) == LocateFrom(rs, card1, i)
      invariant info1.Some? ==> info1 == Locate(rs, card1)
      invariant info2.None? ==> Locate(rs, card2) == LocateFrom(rs, card2, i)
      invariant info2.Some? ==> info2 == Locate(rs, card2)
    {
      var cards := rs[i].cards;
      if info1.None? {
        var c1 := IndexOf(cards, card1);
        if c1 != -1 {
          info1 := Some(Place(i, c1));
        }
      }
      if info2.None? {
        var c2 := IndexOf(cards, card2);
        if c2 != -1 {
          info2 := Some(Place(i, c2));
        }
      }
      i := i + 1;
    }
    if info1.None? || info2.None? {
      return rs;
    }
    LocateFromFound(rs, card1, 0);
    LocateFromFound(rs, card2, 0);
    out := SwapPlaces(rs, info1.value, info2.value);
    SwapPlacesMultiset(rs, info1.value, info2.value);
  }

  /**
    * Between distinct cards, the swap puts each card where the other was
    * and leaves every other card, and all cards distinct.
    */
  lemma SwapCardsEffect(rs: seq<Round>, p1: Place, p2: Place)
    requires IsPlace(rs, p1) && IsPlace(rs, p2) && UniqueCards(rs)
    ensures Locate(rs, CardAt(rs, p1)) == Some(p1) && Locate(rs, CardAt(rs, p2)) == Some(p2)
    ensures CardAt(SwapPlaces(rs, p1, p2), p1) == CardAt(rs, p2)
    ensures CardAt(SwapPlaces(rs, p1, p2), p2) == CardAt(rs, p1)
    ensures forall q :: IsPlace(rs, q) && q != p1 && q != p2 ==> CardAt(SwapPlaces(rs, p1, p2), q) == CardAt(rs, q)
    ensures UniqueCards(SwapPlaces(rs, p1, p2))
  {
    LocateUnique(rs, p1);
    LocateUnique(rs, p2);
    SwapPlacesEffect(rs, p1, p2);
    SwapPlacesUnique(rs, p1, p2);
  }

  // ---- what the passes keep ----

  /** Same shape, and every place still holds a card of the rank it held. */
  ghost predicate RanksKept(a: seq<Round>, b: seq<Round>)
  {
    SameShape(a, b) && forall p :: IsPlace(a, p) && IsPlace(b, p) ==> CardAt(b, p).rank == CardAt(a, p).rank
  }

  /** Same shape, and every place still holds a card of the point value it held. */
  ghost predicate PointsKept(a: seq<Round>, b: seq<Round>)
  {
    SameShape(a, b) && forall p :: IsPlace(a, p) && IsPlace(b, p) ==> CardPoint(CardAt(b, p)) == CardPoint(CardAt(a, p))
  }

  lemma SameShapePlaces(a: seq<Round>, b: seq<Round>)
    requires SameShape(a, b)
    ensures forall p :: IsPlace(a, p) <==> IsPlace(b, p)
  {
  }

  lemma RanksKeepPoints(a: seq<Round>, b: seq<Round>)
    requires RanksKept(a, b)
    ensures PointsKept(a, b)
  {
  }

  lemma {:induction false} PointsKeptFlatten(a: seq<Round>, b: seq<Round>)
    requires PointsKept(a, b)
    ensures Points(Flatten(b)) == Points(Flatten(a))
  {
    if |a| > 0 {
      forall c | 0 <= c < |a[0].cards|
        ensures CardPoint(b[0].cards[c]) == CardPoint(a[0].cards[c])
      {
        assert IsPlace(a, Place(0, c)) && IsPlace(b, Place(0, c));
      }
      assert Points(a[0].cards) == Points(b[0].cards);
      forall p | IsPlace(a[1..], p) && IsPlace(b[1..], p)
        ensures CardPoint(CardAt(b[1..], p)) == CardPoint(CardAt(a[1..], p))
      {
        assert IsPlace(a, Place(p.r + 1, p.c)) && IsPlace(b, Place(p.r + 1, p.c));
      }
      assert SameShape(a[1..], b[1..]) by {
        forall k | 0 <= k < |a[1..]|
          ensures |a[1..][k].cards| == |b[1..][k].cards| && a[1..][k].(cards := b[1..][k].cards) == b[1..][k]
        {
          assert a[1..][k] == a[k + 1] && b[1..][k] == b[k + 1];
        }
      }
      PointsKeptFlatten(a[1..], b[1..]);
      PointsConcat(a[0].cards, Flatten(a[1..]));
      PointsConcat(b[0].cards, Flatten(b[1..]));
    }
  }

  lemma PointsConcat(x: seq<Card>, y: seq<Card>)
    ensures Points(x + y) == Points(x) + Points(y)
  {
  }

  /**
    * A pass that keeps every place's point value keeps the whole shoe's
    * point sequence, so every round the engine deals from it is the same:
    * the engine reads cards only through their points.
    */
  lemma PointsKeptSameShoe(a: seq<Round>, b: seq<Round>)
    requires PointsKept(a, b)
    ensures Points(Flatten(b)) == Points(Flatten(a))
    ensures forall k :: 0 <= k < |a| ==> Points(b[k].cards) == Points(a[k].cards)
  {
    PointsKeptFlatten(a, b);
    forall k | 0 <= k < |a|
      ensures Points(b[k].cards) == Points(a[k].cards)
    {
      forall c | 0 <= c < |a[k].cards|
        ensures CardPoint(b[k].cards[c]) == CardPoint(a[k].cards[c])
      {
        assert IsPlace(a, Place(k, c)) && IsPlace(b, Place(k, c));
      }
    }
  }

  /** `compute_sidx_for_segment` reads only segments and results, which the passes keep. */
  lemma SameShapeSIdx(a: seq<Round>, b: seq<Round>)
    requires SameShape(a, b)
    ensures forall i: nat :: BeforeBanker(b, SegA, i) <==> BeforeBanker(a, SegA, i)
    ensures forall i: nat :: TieTarget(b, i) <==> TieTarget(a, i)
  {
    forall i: nat | i < |a|
      ensures a[i].segment == b[i].segment && a[i].result == b[i].result
    {
      assert a[i].(cards := b[i].cards) == b[i];
    }
  }

  // ---- enforce_tie_signal_combined ----

  /** A segment A round whose next round is a tie: its cards must carry the tie suit. */
  predicate TieTarget(rs: seq<Round>, i: nat)
  {
    i + 1 < |rs| && rs[i].segment == SegA && IsTieResult(ResultText(rs[i + 1].result))
  }

  /** The rounds the tie signal fills, in increasing order. */
  method TieIndices(rs: seq<Round>) returns (ix: seq<nat>)
    ensures forall i: nat :: i in ix <==> TieTarget(rs, i)
    ensures forall a, b :: 0 <= a < b < |ix| ==> ix[a] < ix[b]
    ensures forall a :: 0 <= a < |ix| ==> ix[a] < |rs|
  {
    ix := [];
    var idx := 0;
    while idx + 1 < |rs|
      invariant TieIndicesBelow(rs, ix, idx)
      invariant idx < |rs| || idx == 0
    {
      var hit := rs[idx].segment == SegA && IsTieResult(ResultText(rs[idx + 1].result));
      TieIndicesStep(rs, ix, idx, hit);
      if hit {
        ix := ix + [idx];
      }
      idx := idx + 1;
    }
  }

  /** `ix` lists, in increasing order, the tie-signal rounds below `idx`. */
  ghost predicate TieIndicesBelow(rs: seq<Round>, ix: seq<nat>, idx: nat)
  {
    && (forall i: nat :: i in ix <==> i < idx && TieTarget(rs, i))
    && (forall a, b :: 0 <= a < b < |ix| ==> ix[a] < ix[b])
    && (forall a :: 0 <= a < |ix| ==> ix[a] < idx)
  }

  lemma TieIndicesStep(rs: seq<Round>, ix: seq<nat>, idx: nat, hit: bool)
    requires TieIndicesBelow(rs, ix, idx) && idx + 1 < |rs|
    requires hit <==> TieTarget(rs, idx)
    ensures TieIndicesBelow(rs, if hit then ix + [idx] else ix, idx + 1)
  {
    var ix' := if hit then ix + [idx] else ix;
    forall i: nat ensures i in ix' <==> i < idx + 1 && TieTarget(rs, i) {
      assert i in ix' <==> i in ix || (hit && i == idx);
    }
  }

  /** `all_cards.find(...)`: a card of the rank and suit that is not locked. */
  function FindDonor(cs: seq<Card>, rank: Rank, suit: Suit, locked: set<Card>): (d: Option<Card>)
    ensures d.Some? ==> d.value in cs && d.value.rank == rank && d.value.suit == suit && d.value !in locked
    ensures d.None? ==> forall c :: c in cs && c.rank == rank && c.suit == suit ==> c in locked
  {
    if |cs| == 0 then None
    else if cs[0].rank == rank && cs[0].suit == suit && cs[0] !in locked then Some(cs[0])
    else FindDonor(cs[1..], rank, suit, locked)
  }

  /** The first `n` cards of round `r` carry `suit` and are locked. */
  ghost predicate RoundFilled(rs: seq<Round>, r: nat, n: nat, suit: Suit, locked: set<Card>)
  {
    r < |rs| && n <= |rs[r].cards|
    && forall c :: 0 <= c < n ==> rs[r].cards[c].suit == suit && rs[r].cards[c] in locked
  }

  ghost predicate TieInv(rs0: seq<Round>, out: seq<Round>, locked: set<Card>, suit: Suit, ix: seq<nat>, t: nat)
  {
    RanksKept(rs0, out) && UniqueCards(out) && multiset(Flatten(out)) == multiset(Flatten(rs0))
    && t <= |ix|
    && (forall u :: 0 <= u < |ix| ==> ix[u] < |rs0|)
    && (forall a, b :: 0 <= a < b < |ix| ==> ix[a] < ix[b])
    && (forall u :: 0 <= u < t ==> RoundFilled(out, ix[u], |out[ix[u]].cards|, suit, locked))
  }

  lemma TieInvMono(rs0: seq<Round>, out: seq<Round>, locked: set<Card>, more: set<Card>, suit: Suit, ix: seq<nat>, t: nat)
    requires TieInv(rs0, out, locked, suit, ix, t)
    ensures TieInv(rs0, out, locked + more, suit, ix, t)
  {
  }

  /**
    * One exchange of the tie pass: the card at `(r, j)` trades places with
    * an unlocked same-rank card of the tie suit. The filled rounds and the
    * filled prefix of round `r` keep their cards, because those are locked.
    */
  lemma TieSwapStep(rs0: seq<Round>, out: seq<Round>, locked: set<Card>, suit: Suit, ix: seq<nat>, t: nat, j: nat, q: Place)
    requires TieInv(rs0, out, locked, suit, ix, t) && t < |ix|
    requires RoundFilled(out, ix[t], j, suit, locked) && j < |out[ix[t]].cards|
    requires IsPlace(out, q)
    requires CardAt(out, q).rank == out[ix[t]].cards[j].rank
    requires CardAt(out, q).suit == suit && out[ix[t]].cards[j].suit != suit
    requires CardAt(out, q) !in locked
    ensures var out' := SwapPlaces(out, Place(ix[t], j), q);
            var locked' := locked + {out[ix[t]].cards[j], CardAt(out, q)};
            TieInv(rs0, out', locked', suit, ix, t) && RoundFilled(out', ix[t], j + 1, suit, locked')
  {
    var r := ix[t];
    var a := Place(r, j);
    var out' := SwapPlaces(out, a, q);
    var locked' := locked + {out[r].cards[j], CardAt(out, q)};
    SwapPlacesEffect(out, a, q);
    SwapPlacesMultiset(out, a, q);
    SwapPlacesUnique(out, a, q);
    SameShapeTrans(rs0, out, out');
    forall p | IsPlace(rs0, p) && IsPlace(out', p)
      ensures CardAt(out', p).rank == CardAt(rs0, p).rank
    {
      assert IsPlace(out, p);
    }
    forall u | 0 <= u < t
      ensures RoundFilled(out', ix[u], |out'[ix[u]].cards|, suit, locked')
    {
      assert ix[u] < r;
      assert RoundFilled(out, ix[u], |out[ix[u]].cards|, suit, locked);
      forall c | 0 <= c < |out'[ix[u]].cards|
        ensures out'[ix[u]].cards[c] == out[ix[u]].cards[c]
      {
        assert CardAt(out, Place(ix[u], c)) in locked;
        assert Place(ix[u], c) != q && Place(ix[u], c) != a;
        assert CardAt(out', Place(ix[u], c)) == CardAt(out, Place(ix[u], c));
      }
    }
    forall c | 0 <= c < j + 1
      ensures out'[r].cards[c].suit == suit && out'[r].cards[c] in locked'
    {
      if c < j {
        assert CardAt(out, Place(r, c)) in locked;
        assert Place(r, c) != q && Place(r, c) != a;
        assert CardAt(out', Place(r, c)) == CardAt(out, Place(r, c));
      } else {
        assert CardAt(out', a) == CardAt(out, q);
      }
    }
  }

  /** Locking the whole of round `ix[t]` once it is filled completes step `t`. */
  lemma TieRoundDone(rs0: seq<Round>, out: seq<Round>, locked: set<Card>, suit: Suit, ix: seq<nat>, t: nat)
    requires TieInv(rs0, out, locked, suit, ix, t) && t < |ix|
    requires RoundFilled(out, ix[t], |out[ix[t]].cards|, suit, locked)
    ensures TieInv(rs0, out, locked + (set c | c in out[ix[t]].cards), suit, ix, t + 1)
  {
    var more := set c | c in out[ix[t]].cards;
    TieInvMono(rs0, out, locked, more, suit, ix, t);
  }

  /**
    * `enforce_tie_signal_combined`: for every segment A round followed by a
    * tie, each card not of the tie suit trades places with the first
    * unlocked card of the same rank and the tie suit (searched in the order
    * of the shoe as it stood on entry), and the whole round is locked. With
    * no tie suit nothing happens; the pass throws — here `err` names the
    * card — when no such donor is left.
    */
  method EnforceTieSignalCombined(rs: seq<Round>, tieSuit: Option<Suit>)
    returns (out: seq<Round>, locked: set<Card>, err: Option<Card>)
    requires UniqueCards(rs)
    ensures tieSuit.None? ==> out == rs && locked == {} && err.None?
    ensures RanksKept(rs, out) && UniqueCards(out)
    ensures multiset(Flatten(out)) == multiset(Flatten(rs))
    ensures tieSuit.Some? && err.None? ==>
              forall i: nat :: TieTarget(rs, i) ==> RoundFilled(out, i, |out[i].cards|, tieSuit.value, locked)
    ensures err.Some? ==>
              tieSuit.Some? && err.value.suit != tieSuit.value
              && forall d :: d in Flatten(rs) && d.rank == err.value.rank && d.suit == tieSuit.value ==> d in locked
  {
    out, locked, err := rs, {}, None;
    if tieSuit.None? {
      return;
    }
    var suit := tieSuit.value;
    var allCards := Flatten(rs);
    var ix := TieIndices(rs);
    for t := 0 to |ix|
      invariant TieInv(rs, out, locked, suit, ix, t)
    {
      var r := ix[t];
      var n := |out[r].cards|;
      for j := 0 to n
        invariant TieInv(rs, out, locked, suit, ix, t)
        invariant |out[r].cards| == n
        invariant RoundFilled(out, r, j, suit, locked)
      {
        var cardToReplace := out[r].cards[j];
        if cardToReplace.suit == suit {
          TieInvMono(rs, out, locked, {cardToReplace}, suit, ix, t);
          locked := locked + {cardToReplace};
        } else {
          var donor := FindDonor(allCards, cardToReplace.rank, suit, locked);
          if donor.None? {
            err := Some(cardToReplace);
            return;
          }
          assert donor.value in multiset(allCards);
          ghost var q := LocateInDeck(out, donor.value);
          LocateUnique(out, Place(r, j));
          TieSwapStep(rs, out, locked, suit, ix, t, j, q);
          out := SwapCardsInRounds(out, cardToReplace, donor.value);
          locked := locked + {cardToReplace, donor.value};
        }
      }
      TieRoundDone(rs, out, locked, suit, ix, t);
      locked := locked + set c | c in out[r].cards;
    }
    forall i: nat | TieTarget(rs, i)
      ensures RoundFilled(out, i, |out[i].cards|, suit, locked)
    {
      var u :| 0 <= u < |ix| && ix[u] == i;
    }
  }

  // ---- distribute_signals_evenly ----

  /** A donor: a signal-suit card outside the S rounds `S`, not locked. */
  predicate IsDonor(rs: seq<Round>, p: Place, S: seq<nat>, sig: Suit, locked: set<Card>)
  {
    IsPlace(rs, p) && p.r !in S && CardAt(rs, p).suit == sig && CardAt(rs, p) !in locked
  }

  /** A receiver: a card of another suit inside an S round, not locked. */
  predicate IsReceiver(rs: seq<Round>, p: Place, S: seq<nat>, sig: Suit, locked: set<Card>)
  {
    IsPlace(rs, p) && p.r in S && CardAt(rs, p).suit != sig && CardAt(rs, p) !in locked
  }

  /** Every place of round `k`, in card order. */
  function RoundPlaces(k: nat, n: nat): (ps: seq<Place>)
    ensures |ps| == n && forall c :: 0 <= c < n ==> ps[c] == Place(k, c)
  {
    seq(n, c requires 0 <= c < n => Place(k, c))
  }

  /** Every place of rounds `k..`, in the order of `flatMap(r => r.cards)`. */
  function PlacesFrom(rs: seq<Round>, k: nat): (ps: seq<Place>)
    requires k <= |rs|
    ensures forall p :: p in ps <==> k <= p.r && IsPlace(rs, p)
    decreases |rs| - k
  {
    if k == |rs| then []
    else
      var here := RoundPlaces(k, |rs[k].cards|);
      assert forall p :: p in here <==> p.r == k && p.c < |rs[k].cards| by {
        forall p: Place | p.r == k && p.c < |rs[k].cards|
          ensures p in here
        {
          assert here[p.c] == p;
        }
      }
      here + PlacesFrom(rs, k + 1)
  }

  /** The donors among `ps`, in order. */
  function Donors(rs: seq<Round>, ps: seq<Place>, S: seq<nat>, sig: Suit, locked: set<Card>): (ds: seq<Place>)
    ensures forall p :: p in ds <==> p in ps && IsDonor(rs, p, S, sig, locked)
  {
    if |ps| == 0 then []
    else (if IsDonor(rs, ps[0], S, sig, locked) then [ps[0]] else []) + Donors(rs, ps[1..], S, sig, locked)
  }

  /** The receivers among `ps`, in order. */
  function Receivers(rs: seq<Round>, ps: seq<Place>, S: seq<nat>, sig: Suit, locked: set<Card>): (ds: seq<Place>)
    ensures forall p :: p in ds <==> p in ps && IsReceiver(rs, p, S, sig, locked)
  {
    if |ps| == 0 then []
    else (if IsReceiver(rs, ps[0], S, sig, locked) then [ps[0]] else []) + Receivers(rs, ps[1..], S, sig, locked)
  }

  /** Donor `a` and receiver `b` hold cards of the same point value (`samePoint`). */
  predicate Matches(rs: seq<Round>, ds: seq<Place>, rcv: seq<Place>, a: nat, b: nat)
    requires forall p :: p in ds ==> IsPlace(rs, p)
    requires forall p :: p in rcv ==> IsPlace(rs, p)
  {
    a < |ds| && b < |rcv| && CardPoint(CardAt(rs, ds[a])) == CardPoint(CardAt(rs, rcv[b]))
  }

  /** How many rounds apart donor `a` and receiver `b` are. */
  function Distance(ds: seq<Place>, rcv: seq<Place>, a: nat, b: nat): nat
    requires a < |ds| && b < |rcv|
  {
    if ds[a].r <= rcv[b].r then rcv[b].r - ds[a].r else ds[a].r - rcv[b].r
  }

  /** Pair `(a, b)` comes before `(a', b')` in the donor-major scan. */
  predicate Earlier(a: nat, b: nat, a': nat, b': nat)
  {
    a < a' || (a == a' && b < b')
  }

  /**
    * The nearest-swap search: the matching pair of donor and receiver with
    * the smallest distance in rounds, the first such pair in the
    * donor-major scan; none exactly when no pair matches.
    */
  method BestSwap(rs: seq<Round>, ds: seq<Place>, rcv: seq<Place>) returns (best: Option<(nat, nat)>)
    requires forall p :: p in ds ==> IsPlace(rs, p)
    requires forall p :: p in rcv ==> IsPlace(rs, p)
    ensures best.None? <==> forall a: nat, b: nat :: !Matches(rs, ds, rcv, a, b)
    ensures best.Some? ==>
              var (a, b) := best.value;
              Matches(rs, ds, rcv, a, b)
              && (forall a': nat, b': nat :: Matches(rs, ds, rcv, a', b') ==> Distance(ds, rcv, a, b) <= Distance(ds, rcv, a', b'))
              && (forall a': nat, b': nat :: Matches(rs, ds, rcv, a', b') && Earlier(a', b', a, b) ==>
                    Distance(ds, rcv, a, b) < Distance(ds, rcv, a', b'))
  {
    best := None;
    var minDistance := 0;
    for a := 0 to |ds|
      invariant best.None? ==> forall a': nat, b': nat :: a' < a ==> !Matches(rs, ds, rcv, a', b')
      invariant best.Some? ==>
                  var (x, y) := best.value;
                  Matches(rs, ds, rcv, x, y) && x < a && minDistance == Distance(ds, rcv, x, y)
                  && (forall a': nat, b': nat :: a' < a && Matches(rs, ds, rcv, a', b') ==> minDistance <= Distance(ds, rcv, a', b'))
                  && (forall a': nat, b': nat :: Matches(rs, ds, rcv, a', b') && Earlier(a', b', x, y) ==> minDistance < Distance(ds, rcv, a', b'))
    {
      for b := 0 to |rcv|
        invariant best.None? ==> forall a': nat, b': nat :: Earlier(a', b', a, b) ==> !Matches(rs, ds, rcv, a', b')
        invariant best.Some? ==>
                    var (x, y) := best.value;
                    Matches(rs, ds, rcv, x, y) && Earlier(x, y, a, b) && minDistance == Distance(ds, rcv, x, y)
                    && (forall a': nat, b': nat :: Earlier(a', b', a, b) && Matches(rs, ds, rcv, a', b') ==> minDistance <= Distance(ds, rcv, a', b'))
                    && (forall a': nat, b': nat :: Matches(rs, ds, rcv, a', b') && Earlier(a', b', x, y) ==> minDistance < Distance(ds, rcv, a', b'))
      {
        if CardPoint(CardAt(rs, ds[a])) == CardPoint(CardAt(rs, rcv[b])) {
          var distance := Distance(ds, rcv, a, b);
          if best.None? || distance < minDistance {
            minDistance := distance;
            best := Some((a, b));
          }
        }
      }
    }
    if best.Some? {
      var (x, y) := best.value;
      assert Matches(rs, ds, rcv, x, y);
    }
  }

  /** `signal_suit` is among the cards (`cards.some(c => c.suit === signal_suit)`). */
  predicate HasSuit(cs: seq<Card>, s: Suit)
  {
    exists i :: 0 <= i < |cs| && cs[i].suit == s
  }

  /**
    * Every place that changed now holds a locked card, held an unlocked one,
    * and changed in the direction of the pass: an S round received a
    * signal-suit card for one of another suit, any other round gave one
    * away for one of another suit.
    */
  ghost predicate SignalMoves(rs0: seq<Round>, out: seq<Round>, locked0: set<Card>, locked: set<Card>, sig: Suit)
  {
    forall p :: IsPlace(rs0, p) && IsPlace(out, p) && CardAt(out, p) != CardAt(rs0, p) ==>
      CardAt(out, p) in locked && CardAt(rs0, p) !in locked0
      && if BeforeBanker(rs0, SegA, p.r) then CardAt(out, p).suit == sig && CardAt(rs0, p).suit != sig
         else CardAt(rs0, p).suit == sig && CardAt(out, p).suit != sig
  }

  ghost predicate DistInv(rs0: seq<Round>, out: seq<Round>, locked0: set<Card>, locked: set<Card>, sig: Suit)
  {
    PointsKept(rs0, out) && UniqueCards(out) && multiset(Flatten(out)) == multiset(Flatten(rs0))
    && locked0 <= locked && SignalMoves(rs0, out, locked0, locked, sig)
  }

  /** One nearest swap keeps the invariant of the pass. */
  lemma DistStep(rs0: seq<Round>, out: seq<Round>, locked0: set<Card>, locked: set<Card>, sig: Suit,
                 S: seq<nat>, q1: Place, q2: Place)
    requires DistInv(rs0, out, locked0, locked, sig)
    requires forall k: nat :: k in S <==> BeforeBanker(rs0, SegA, k)
    requires IsDonor(out, q1, S, sig, locked) && IsReceiver(out, q2, S, sig, locked)
    requires CardPoint(CardAt(out, q1)) == CardPoint(CardAt(out, q2))
    ensures DistInv(rs0, SwapPlaces(out, q1, q2), locked0, locked + {CardAt(out, q1), CardAt(out, q2)}, sig)
  {
    var out' := SwapPlaces(out, q1, q2);
    assert PointsKept(rs0, out') by {
      DistPoints(rs0, out, q1, q2);
    }
    assert UniqueCards(out') && multiset(Flatten(out')) == multiset(Flatten(rs0)) by {
      SwapPlacesMultiset(out, q1, q2);
      SwapPlacesUnique(out, q1, q2);
    }
    assert SignalMoves(rs0, out', locked0, locked + {CardAt(out, q1), CardAt(out, q2)}, sig) by {
      DistMoves(rs0, out, locked0, locked, sig, S, q1, q2);
    }
  }

  /** A swap of two cards of one point value keeps every point value. */
  lemma DistPoints(rs0: seq<Round>, out: seq<Round>, q1: Place, q2: Place)
    requires PointsKept(rs0, out) && IsPlace(out, q1) && IsPlace(out, q2)
    requires CardPoint(CardAt(out, q1)) == CardPoint(CardAt(out, q2))
    ensures PointsKept(rs0, SwapPlaces(out, q1, q2))
  {
    var out' := SwapPlaces(out, q1, q2);
    SwapPlacesEffect(out, q1, q2);
    SameShapeTrans(rs0, out, out');
    forall p | IsPlace(rs0, p) && IsPlace(out', p)
      ensures CardPoint(CardAt(out', p)) == CardPoint(CardAt(rs0, p))
    {
      assert IsPlace(out, p);
    }
  }

  /** A donor and a receiver swapped are locked, and each moves the signal suit the right way. */
  lemma DistMoves(rs0: seq<Round>, out: seq<Round>, locked0: set<Card>, locked: set<Card>, sig: Suit,
                  S: seq<nat>, q1: Place, q2: Place)
    requires SameShape(rs0, out) && locked0 <= locked && SignalMoves(rs0, out, locked0, locked, sig)
    requires forall k: nat :: k in S <==> BeforeBanker(rs0, SegA, k)
    requires IsDonor(out, q1, S, sig, locked) && IsReceiver(out, q2, S, sig, locked)
    ensures SignalMoves(rs0, SwapPlaces(out, q1, q2), locked0, locked + {CardAt(out, q1), CardAt(out, q2)}, sig)
  {
    var out' := SwapPlaces(out, q1, q2);
    var locked' := locked + {CardAt(out, q1), CardAt(out, q2)};
    SwapPlacesEffect(out, q1, q2);
    SameShapeTrans(rs0, out, out');
    assert IsPlace(rs0, q1) && IsPlace(rs0, q2);
    assert CardAt(out, q1) == CardAt(rs0, q1);
    assert CardAt(out, q2) == CardAt(rs0, q2);
    forall p | IsPlace(rs0, p) && IsPlace(out', p) && CardAt(out', p) != CardAt(rs0, p)
      ensures CardAt(out', p) in locked' && CardAt(rs0, p) !in locked0
      ensures if BeforeBanker(rs0, SegA, p.r) then CardAt(out', p).suit == sig && CardAt(rs0, p).suit != sig
              else CardAt(rs0, p).suit == sig && CardAt(out', p).suit != sig
    {
      assert IsPlace(out, p);
    }
  }

  /** The first S round, in increasing order, without a signal-suit card. */
  method FirstWithoutSuit(rs: seq<Round>, S: seq<nat>, sig: Suit) returns (err: Option<nat>)
    requires forall a :: 0 <= a < |S| ==> S[a] < |rs|
    ensures err.None? <==> forall a :: 0 <= a < |S| ==> HasSuit(rs[S[a]].cards, sig)
    ensures err.Some? ==> err.value in S && !HasSuit(rs[err.value].cards, sig)
  {
    err := None;
    for a := 0 to |S|
      invariant forall a' :: 0 <= a' < a ==> HasSuit(rs[S[a']].cards, sig)
    {
      if !HasSuit(rs[S[a]].cards, sig) {
        err := Some(S[a]);
        return;
      }
    }
  }

  const MAX_ITERATIONS: nat := 2000

  /**
    * `distribute_signals_evenly`: up to 2000 times, exchange the nearest
    * pair of an unlocked signal-suit card outside the S rounds and an
    * unlocked equal-point card of another suit inside them, locking both;
    * stop when no pair is left. Then every S round must hold a signal-suit
    * card: `err` is the first that does not (where the source throws).
    */
  method DistributeSignalsEvenly(rs: seq<Round>, signal: Option<Suit>, locked0: set<Card>)
    returns (out: seq<Round>, locked: set<Card>, err: Option<nat>)
    requires UniqueCards(rs)
    ensures signal.None? ==> out == rs && locked == locked0 && err.None?
    ensures PointsKept(rs, out) && UniqueCards(out)
    ensures multiset(Flatten(out)) == multiset(Flatten(rs))
    ensures locked0 <= locked
    ensures signal.Some? ==> SignalMoves(rs, out, locked0, locked, signal.value)
    ensures signal.Some? ==>
              (err.None? <==> forall i: nat :: BeforeBanker(rs, SegA, i) ==> HasSuit(out[i].cards, signal.value))
    ensures err.Some? ==>
              signal.Some? && BeforeBanker(rs, SegA, err.value) && !HasSuit(out[err.value].cards, signal.value)
  {
    out, locked, err := rs, locked0, None;
    if signal.None? {
      return;
    }
    var sig := signal.value;
    for iter := 0 to MAX_ITERATIONS
      invariant DistInv(rs, out, locked0, locked, sig)
    {
      var S := SIdxForSegment(out, SegA);
      if |S| == 0 {
        break;
      }
      var places := PlacesFrom(out, 0);
      var donors := Donors(out, places, S, sig, locked);
      var receivers := Receivers(out, places, S, sig, locked);
      var best := BestSwap(out, donors, receivers);
      if best.None? {
        break;
      }
      var (a, b) := best.value;
      var donor, receiver := CardAt(out, donors[a]), CardAt(out, receivers[b]);
      SameShapeSIdx(rs, out);
      assert donors[a] in donors && receivers[b] in receivers;
      DistStep(rs, out, locked0, locked, sig, S, donors[a], receivers[b]);
      LocateUnique(out, donors[a]);
      LocateUnique(out, receivers[b]);
      out := SwapCardsInRounds(out, donor, receiver);
      locked := locked + {donor, receiver};
    }
    var S := SIdxForSegment(out, SegA);
    SameShapeSIdx(rs, out);
    SIdxBelowLast(out, SegA);
    err := FirstWithoutSuit(out, S, sig);
    if err.None? {
      forall i: nat | BeforeBanker(rs, SegA, i)
        ensures HasSuit(out[i].cards, sig)
      {
        var a :| 0 <= a < |S| && S[a] == i;
      }
    }
  }

  // ---- apply_combined_rules_internal ----

  datatype RuleFailure =
    | TieFailed(card: Card)        // no donor for the tie signal
    | EvenFailed(round: nat)       // an S round left without a signal card
    | ValidationFailed(round: nat) // the final check, with the heart signal enabled

  /** A place the tie pass filled keeps its card through the signal pass. */
  lemma TieSurvives(rs0: seq<Round>, mid: seq<Round>, out: seq<Round>, tie: Suit, locked: set<Card>,
                    lockedOut: set<Card>, sig: Suit)
    requires SameShape(rs0, mid) && PointsKept(mid, out)
    requires SignalMoves(mid, out, locked, lockedOut, sig)
    requires forall i: nat :: TieTarget(rs0, i) ==> RoundFilled(mid, i, |mid[i].cards|, tie, locked)
    ensures forall i: nat, c :: TieTarget(rs0, i) && 0 <= c < |out[i].cards| ==> out[i].cards[c].suit == tie
  {
    forall i: nat, c | TieTarget(rs0, i) && 0 <= c < |out[i].cards|
      ensures out[i].cards[c].suit == tie
    {
      assert RoundFilled(mid, i, |mid[i].cards|, tie, locked);
      assert IsPlace(mid, Place(i, c)) && IsPlace(out, Place(i, c));
      assert CardAt(mid, Place(i, c)) in locked;
    }
  }

  lemma FilledSuits(rs0: seq<Round>, mid: seq<Round>, tie: Suit, locked: set<Card>)
    requires |rs0| == |mid|
    requires forall i: nat :: TieTarget(rs0, i) ==> RoundFilled(mid, i, |mid[i].cards|, tie, locked)
    ensures forall i: nat, c :: TieTarget(rs0, i) && 0 <= c < |mid[i].cards| ==> mid[i].cards[c].suit == tie
  {
    forall i: nat, c | TieTarget(rs0, i) && 0 <= c < |mid[i].cards|
      ensures mid[i].cards[c].suit == tie
    {
      assert RoundFilled(mid, i, |mid[i].cards|, tie, locked);
    }
  }

  /**
    * `apply_combined_rules_internal`: the tie signal, then the signal
    * distribution with the tie locks, then (with the heart signal enabled)
    * the check that every S round holds a signal-suit card.
    */
  method ApplyCombinedRules(rs: seq<Round>, signal: Option<Suit>, tie: Option<Suit>, heartSignalEnabled: bool)
    returns (out: seq<Round>, failure: Option<RuleFailure>)
    requires UniqueCards(rs)
    ensures PointsKept(rs, out) && multiset(Flatten(out)) == multiset(Flatten(rs))
    ensures failure.None? && tie.Some? ==>
              forall i: nat, c :: TieTarget(rs, i) && 0 <= c < |out[i].cards| ==> out[i].cards[c].suit == tie.value
    ensures failure.None? && heartSignalEnabled ==>
              forall i: nat :: BeforeBanker(rs, SegA, i) ==> signal.Some? && HasSuit(out[i].cards, signal.value)
    ensures failure.Some? && failure.value.ValidationFailed? ==> heartSignalEnabled && signal.None?
  {
    var mid, tieLocked, tieErr := EnforceTieSignalCombined(rs, tie);
    RanksKeepPoints(rs, mid);
    if tieErr.Some? {
      return mid, Some(TieFailed(tieErr.value));
    }
    var locked: set<Card>;
    var evenErr: Option<nat>;
    out, locked, evenErr := DistributeSignalsEvenly(mid, signal, tieLocked);
    SameShapeTrans(rs, mid, out);
    SameShapeSIdx(rs, mid);
    assert PointsKept(rs, out) by {
      forall p | IsPlace(rs, p) && IsPlace(out, p)
        ensures CardPoint(CardAt(out, p)) == CardPoint(CardAt(rs, p))
      {
        assert IsPlace(mid, p);
      }
    }
    if evenErr.Some? {
      return out, Some(EvenFailed(evenErr.value));
    }
    if tie.Some? {
      if signal.Some? {
        TieSurvives(rs, mid, out, tie.value, tieLocked, locked, signal.value);
      } else {
        FilledSuits(rs, mid, tie.value, tieLocked);
      }
    }
    var S := SIdxForSegment(out, SegA);
    SameShapeSIdx(mid, out);
    SIdxBelowLast(out, SegA);
    failure := None;
    for a := 0 to |S|
      invariant heartSignalEnabled ==>
                  forall a' :: 0 <= a' < a ==> signal.Some? && HasSuit(out[S[a']].cards, signal.value)
    {
      var hasSignal := signal.Some? && HasSuit(out[S[a]].cards, signal.value);
      if heartSignalEnabled && !hasSignal {
        assert S[a] in S;
        failure := Some(ValidationFailed(S[a]));
        return;
      }
    }
    if heartSignalEnabled {
      forall i: nat | BeforeBanker(rs, SegA, i)
        ensures signal.Some? && HasSuit(out[i].cards, signal.value)
      {
        var a :| 0 <= a < |S| && S[a] == i;
      }
    }
  }
}

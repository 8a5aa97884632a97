// go/waa.py `apply_shoe_rules` (the suit rules in order), the outer
// `generate_all_sensitive_shoe_or_retry`, and the per-shoe body of `main`:
// the colour rule and the integrity re-check of every generated shoe.

module ShoeRules {
  import opened Base
  import opened Cards
  import opened Shuffle
  import opened Tail
  import opened Deck
  import opened WaaPack
  import opened Suits
  import opened TieSignal
  import opened Distribution
  import opened Balance
  import opened Colour

  /** Whether the tail joins the round views: it does when it is dealt to a result. */
  predicate TailJoins(tail: seq<Card>)
  {
    |tail| > 0 && SeqResult(tail).Some?
  }

  /** The card list of each round. */
  function RoundCards(rounds: seq<Round>): (vs: Views)
    ensures |vs| == |rounds|
    ensures forall k :: 0 <= k < |rounds| ==> vs[k] == rounds[k].cards
  {
    seq(|rounds|, k requires 0 <= k < |rounds| => rounds[k].cards)
  }

  /** The card lists `apply_shoe_rules` works on: each round's, then the tail's when it joins. */
  function RoundViews(rounds: seq<Round>, tail: seq<Card>): (vs: Views)
    ensures |vs| == |rounds| + (if TailJoins(tail) then 1 else 0)
    ensures forall k :: 0 <= k < |rounds| ==> vs[k] == rounds[k].cards
    ensures TailJoins(tail) ==> vs[|rounds|] == tail
  {
    RoundCards(rounds) + (if TailJoins(tail) then [tail] else [])
  }

  /** The results of those views; the tail's is its dealt outcome. */
  function RoundLabels(rounds: seq<Round>, tail: seq<Card>): (ls: seq<Label>)
    ensures |ls| == |RoundViews(rounds, tail)|
    ensures forall k :: 0 <= k < |rounds| ==> ls[k] == rounds[k].result
    ensures TailJoins(tail) ==> ls[|rounds|] == Won(SeqResult(tail).value)
  {
    seq(|rounds|, k requires 0 <= k < |rounds| => rounds[k].result)
    + (if TailJoins(tail) then [Won(SeqResult(tail).value)] else [])
  }

  lemma {:induction false} ConcatCards(rounds: seq<Round>)
    ensures Concat(RoundCards(rounds)) == Flatten(rounds)
  {
    if |rounds| > 0 {
      ConcatCards(rounds[1..]);
      assert RoundCards(rounds)[1..] == RoundCards(rounds[1..]);
    }
  }

  /** The rounds' cards and then the tail's, as one list. */
  lemma ShoeConcat(rounds: seq<Round>, tail: seq<Card>)
    ensures Concat(RoundCards(rounds) + [tail]) == Flatten(rounds) + tail
  {
    ConcatCards(rounds);
    ConcatAppend(RoundCards(rounds), [tail]);
    assert [tail][1..] == [];
    assert Concat([tail]) == tail;
  }

  /** Every card of the rounds and the tail is among the views, once. */
  lemma ViewsHoldShoe(rounds: seq<Round>, tail: seq<Card>)
    requires |tail| > 0 ==> TailJoins(tail)
    ensures Concat(RoundViews(rounds, tail)) == Flatten(rounds) + tail
  {
    if TailJoins(tail) {
      ShoeConcat(rounds, tail);
    } else {
      ConcatCards(rounds);
      assert RoundViews(rounds, tail) == RoundCards(rounds);
      assert tail == [];
    }
  }

  /** The cards of `held` sit in the listed views and have the signal suit. */
  ghost predicate SignalHeld(vs: Views, held: set<Slot>, S: seq<nat>, sig: Suit)
  {
    forall q :: q in held ==> IsSlot(vs, q) && q.k in S && CardAt(vs, q).suit == sig
  }

  /** A balancing step keeps the held signal cards when they are among its locked cards. */
  lemma HeldSurvives(a: Views, b: Views, locked: set<Slot>, held: set<Slot>, ss: seq<Suit>, S: seq<nat>, sig: Suit)
    requires SameShape(a, b) && Untouched(a, b, locked, ss) && held <= locked
    requires SignalHeld(a, held, S, sig)
    ensures SignalHeld(b, held, S, sig)
  {
    forall q | q in held
      ensures IsSlot(b, q) && q.k in S && CardAt(b, q).suit == sig
    {
      assert CardAt(b, q) == CardAt(a, q);
    }
  }

  /**
    * `apply_shoe_rules`. `altPick` gives the draws of step 2 of the tie
    * signal. Returns the views with their final suits, whether every rule
    * passed, and (as a ghost) the signal cards the distribution locked. Each
    * card keeps its rank, position and colours. Without a tie suit every rule
    * only exchanges suits of same-rank cards, so the faces and suit counts of
    * the shoe are kept; with one, step 2 of the tie rule may overwrite a suit.
    * On success the views preceding a tie hold only the tie suit and no other
    * view holds it, and the locked signal cards still have the signal suit
    * and still sit in views preceding a Banker win.
    */
  method ApplyShoeRules(rounds: seq<Round>, tail: seq<Card>, sig: Option<Suit>, tie: Option<Suit>,
                        lateDiff: int, altPick: nat -> nat)
    returns (out: Views, ok: bool, ghost sigLocked: set<Slot>)
    ensures SameButSuits(RoundViews(rounds, tail), out)
    ensures tie.None? ==> Conserved(RoundViews(rounds, tail), out)
    ensures ok && tie.Some? ==> ValidateTieSignal(out, RoundLabels(rounds, tail), tie.value)
    ensures ok && sig.Some? ==> SignalHeld(out, sigLocked, SIdx(RoundLabels(rounds, tail)), sig.value)
  {
    var vs := RoundViews(rounds, tail);
    var results := RoundLabels(rounds, tail);
    out := vs;
    sigLocked := {};
    var locked: set<Slot> := {};

    // 1) the tie signal
    if tie.Some? {
      var r := EnforceTieSignal(out, results, tie, altPick);
      if r.Err? {
        return out, false, sigLocked;
      }
      out := r.value.0;
      locked := locked + r.value.1;
    }

    // 2) the S index list and the signal suit
    if sig.Some? {
      var S := SIdx(results);
      forall a | 0 <= a < |S| ensures S[a] < |out| {
        assert S[a] in S;
      }
      var mid, r := EnforceSuitDistribution(out, sig.value, S);
      SameButSuitsTrans(vs, out, mid);
      if r.Err? {
        var mid2, r2 := EnsureSignalPresence(mid, sig.value, S);
        SameButSuitsTrans(vs, mid, mid2);
        if r2.Err? {
          return mid2, false, sigLocked;
        }
        mid, r := mid2, r2;
      }
      out := mid;
      sigLocked := r.value;
      locked := locked + r.value;
      assert SignalHeld(out, sigLocked, S, sig.value);
    }

    // 3) late_balance
    var balanced, fine := LateBalance(out, locked, lateDiff, sig, tie);
    SameButSuitsTrans(vs, out, balanced);
    if sig.Some? {
      HeldSurvives(out, balanced, locked, sigLocked, BalancedSuits(sig, tie), SIdx(results), sig.value);
    }
    out := balanced;
    if !fine {
      return out, false, sigLocked;
    }

    // 4) balance_non_tie_suits
    if tie.Some? {
      var evened, _ := BalanceNonTieSuits(out, tie, locked, lateDiff);
      SameButSuitsTrans(vs, out, evened);
      if sig.Some? {
        HeldSurvives(out, evened, locked, sigLocked, BalancedSuits(None, tie), SIdx(results), sig.value);
      }
      out := evened;
    }

    // 5) validate_tie_signal
    if tie.Some? && !ValidateTieSignal(out, results, tie.value) {
      return out, false, sigLocked;
    }
    ok := true;
  }

  // ---- the integrity check of `main` ----

  /** Every one of the 52 faces appears exactly `NUM_DECKS` times. */
  ghost predicate Intact(cs: seq<Card>)
  {
    forall r: Rank, s: Suit :: multiset(Faces(cs))[(r, s)] == NUM_DECKS
  }

  lemma EveryRank(r: Rank)
    ensures r in RANKS
  {
    assert RANKS[r - 1] == r;
  }

  lemma EverySuit(s: Suit)
    ensures s in SUITS
  {
    match s
    case Spade => assert SUITS[0] == s;
    case Heart => assert SUITS[1] == s;
    case Diamond => assert SUITS[2] == s;
    case Club => assert SUITS[3] == s;
  }

  /**
    * The check `main` runs on each shoe: count every (rank, suit) over the
    * rounds and the tail, and compare each of the 52 counts with `NUM_DECKS`.
    */
  method CheckIntact(cs: seq<Card>) returns (ok: bool)
    ensures ok <==> Intact(cs)
  {
    var cnt := multiset(Faces(cs));
    ok := true;
    for si := 0 to |SUITS|
      invariant ok <==> forall r: Rank, s: Suit :: s in SUITS[..si] ==> cnt[(r, s)] == NUM_DECKS
    {
      for ri := 0 to |RANKS|
        invariant ok <==> (forall r: Rank, s: Suit :: s in SUITS[..si] ==> cnt[(r, s)] == NUM_DECKS)
                          && forall r: Rank :: r in RANKS[..ri] ==> cnt[(r, SUITS[si])] == NUM_DECKS
      {
        if cnt[(RANKS[ri], SUITS[si])] != NUM_DECKS {
          ok := false;
        }
        assert RANKS[..ri + 1] == RANKS[..ri] + [RANKS[ri]];
      }
      assert RANKS[..|RANKS|] == RANKS;
      assert SUITS[..si + 1] == SUITS[..si] + [SUITS[si]];
      forall r: Rank ensures r in RANKS {
        EveryRank(r);
      }
    }
    assert SUITS[..|SUITS|] == SUITS;
    forall s: Suit ensures s in SUITS {
      EverySuit(s);
    }
  }

  /** Two lists holding the same cards hold the same faces. */
  lemma {:induction false} FacesOfPermutation(a: seq<Card>, b: seq<Card>)
    requires multiset(a) == multiset(b)
    ensures multiset(Faces(a)) == multiset(Faces(b))
    decreases |a|
  {
    if |a| == 0 {
      assert |b| == |multiset(b)| == 0;
      assert Faces(a) == [] && Faces(b) == [];
    } else {
      assert a[0] in multiset(b);
      var i :| 0 <= i < |b| && b[i] == a[0];
      var rest := b[..i] + b[i + 1..];
      assert b == b[..i] + [b[i]] + b[i + 1..];
      assert a == [a[0]] + a[1..];
      assert multiset(b) == multiset(b[..i]) + multiset([b[i]]) + multiset(b[i + 1..]);
      assert multiset(rest) == multiset(b[..i]) + multiset(b[i + 1..]);
      assert multiset(a) == multiset([a[0]]) + multiset(a[1..]);
      assert multiset(a[1..]) == multiset(a) - multiset{a[0]};
      assert multiset(rest) == multiset(b) - multiset{b[i]};
      FacesOfPermutation(a[1..], rest);
      FacesAppend([a[0]], a[1..]);
      FacesAppend(b[..i] + [b[i]], b[i + 1..]);
      FacesAppend(b[..i], [b[i]]);
      FacesAppend(b[..i], b[i + 1..]);
    }
  }

  /** Faces shift along with a view list's tail. */
  lemma {:induction false} SameFacesBag(a: Views, b: Views)
    requires SameShape(a, b)
    requires forall q :: IsSlot(a, q) ==> Face(CardAt(a, q)) == Face(CardAt(b, q))
    ensures Bag(a) == Bag(b)
    decreases |a|
  {
    if |a| > 0 {
      forall q | IsSlot(a[1..], q)
        ensures Face(CardAt(a[1..], q)) == Face(CardAt(b[1..], q))
      {
        assert IsSlot(a, Slot(q.k + 1, q.j));
      }
      SameFacesBag(a[1..], b[1..]);
      assert Faces(a[0]) == Faces(b[0]) by {
        forall j | 0 <= j < |a[0]| ensures Face(a[0][j]) == Face(b[0][j]) {
          assert IsSlot(a, Slot(0, j));
        }
      }
      FacesAppend(a[0], Concat(a[1..]));
      FacesAppend(b[0], Concat(b[1..]));
    }
  }

  /** A shoe the packer builds from a fresh deck holds every face `NUM_DECKS` times. */
  lemma PackedShoeIntact(deck: seq<Card>, rounds: seq<Round>, tail: seq<Card>)
    requires forall i :: 0 <= i < |deck| ==> deck[i].pos == i
    requires forall r: Rank, s: Suit :: multiset(Faces(deck))[(r, s)] == NUM_DECKS
    requires PackedShoe(deck, rounds, tail)
    ensures |tail| > 0 ==> TailJoins(tail)
    ensures Intact(Concat(RoundViews(rounds, tail)))
  {
    assert DistinctPositions(deck);
    FacesOfPermutation(Flatten(rounds) + tail, deck);
    ViewsHoldShoe(rounds, tail);
  }

  // ---- rebuilding the rounds from the views ----

  /** The rounds with each one's cards replaced by its view. */
  function Rebuild(rounds: seq<Round>, vs: Views): (rs: seq<Round>)
    requires |vs| >= |rounds|
    ensures |rs| == |rounds|
    ensures forall k :: 0 <= k < |rounds| ==> rs[k] == rounds[k].(cards := vs[k])
  {
    seq(|rounds|, k requires 0 <= k < |rounds| => rounds[k].(cards := vs[k]))
  }

  /** The tail as the views leave it: its view when it joined, else unchanged. */
  function RebuildTail(rounds: seq<Round>, tail: seq<Card>, vs: Views): (t: seq<Card>)
    requires |vs| >= |rounds|
    ensures |t| == |tail| || (TailJoins(tail) && |vs| > |rounds| && t == vs[|rounds|])
  {
    if TailJoins(tail) && |vs| > |rounds| then vs[|rounds|] else tail
  }

  /** Suits do not change a list's points, so a rewritten tail still joins with the same result. */
  lemma SameRanksSameResult(a: seq<Card>, b: seq<Card>)
    requires |a| == |b| && forall j :: 0 <= j < |a| ==> b[j].rank == a[j].rank
    ensures SeqResult(a) == SeqResult(b)
  {
    assert Points(a) == Points(b);
  }

  /** Rebuilding from views that only change suits gives back those views, with the same results. */
  lemma RebuildViews(rounds: seq<Round>, tail: seq<Card>, out: Views)
    requires SameButSuits(RoundViews(rounds, tail), out)
    ensures RoundViews(Rebuild(rounds, out), RebuildTail(rounds, tail, out)) == out
    ensures RoundLabels(Rebuild(rounds, out), RebuildTail(rounds, tail, out)) == RoundLabels(rounds, tail)
  {
    var vs := RoundViews(rounds, tail);
    var t := RebuildTail(rounds, tail, out);
    if TailJoins(tail) {
      assert t == out[|rounds|];
      forall j | 0 <= j < |tail| ensures t[j].rank == tail[j].rank {
        assert IsSlot(vs, Slot(|rounds|, j));
      }
      SameRanksSameResult(tail, t);
    }
    assert TailJoins(t) == TailJoins(tail);
  }

  /**
    * `generate_all_sensitive_shoe_or_retry`: up to `maxAttempts` attempts,
    * each on a fresh deck drawn by `deckPick(attempt)`, packed with the
    * reshuffle draws `rng(attempt)` and ruled with the tie draws
    * `altPick(attempt)`; the first attempt whose packing and rules succeed
    * gives the rounds, the tail and the deck. The deck holds every face eight
    * times; without a tie suit so do the rounds and the tail; with one, the
    * views preceding a tie hold only the tie suit and no other card has it.
    */
  method GenerateOrRetry(minTailStop: nat, minCards: nat, sig: Option<Suit>, tie: Option<Suit>,
                         lateDiff: int, maxAttempts: nat, deckPick: nat -> (nat -> nat),
                         rng: nat -> (nat -> (nat -> nat)), altPick: nat -> (nat -> nat))
    returns (res: Option<(seq<Round>, seq<Card>, seq<Card>)>)
    requires forall a: nat :: ValidPick(deckPick(a)) && ValidDraws(rng(a))
    ensures res.Some? ==> |res.value.2| == SHOE_SIZE
    ensures res.Some? ==> forall r: Rank, s: Suit :: multiset(Faces(res.value.2))[(r, s)] == NUM_DECKS
    ensures res.Some? ==> |res.value.1| in {0, 4, 5, 6} && (|res.value.1| > 0 ==> TailJoins(res.value.1))
    ensures res.Some? && tie.None? ==> Intact(Flatten(res.value.0) + res.value.1)
    ensures res.Some? && tie.Some? ==>
              ValidateTieSignal(RoundViews(res.value.0, res.value.1), RoundLabels(res.value.0, res.value.1), tie.value)
  {
    for attempt := 1 to maxAttempts + 1 {
      var deck := BuildShuffledDeck(deckPick(attempt));
      var packed;
      ghost var tail0, draws;
      packed, tail0, draws := PackAllSensitiveOnce(deck, minTailStop, minCards, MANUAL_TAIL, rng(attempt));
      if packed.None? {
        continue;
      }
      var (rounds, tail) := packed.value;
      var out, ok;
      ghost var held;
      out, ok, held := ApplyShoeRules(rounds, tail, sig, tie, lateDiff, altPick(attempt));
      if !ok {
        continue;
      }
      PackedShoeIntact(deck, rounds, tail);
      RebuildViews(rounds, tail, out);
      var rs, t := Rebuild(rounds, out), RebuildTail(rounds, tail, out);
      assert |t| == |tail| by {
        if TailJoins(tail) {
          assert IsSlot(RoundViews(rounds, tail), Slot(|rounds|, 0));
        }
      }
      ViewsHoldShoe(rs, t);
      if tie.None? {
        assert Bag(RoundViews(rounds, tail)) == Bag(out);
      }
      return Some((rs, t, deck));
    }
    return None;
  }

  /** How one shoe of `main` ends. */
  datatype ShoeOutcome =
    | Made(rounds: seq<Round>, tail: seq<Card>, deck: seq<Card>)
    | Exhausted
    | Uncolourable(msg: string)
    | Broken

  /**
    * One shoe of `main`: generate, apply the colour rule when enabled, then
    * re-check every face count. A made shoe holds every face eight times and,
    * with the colour rule, every card is coloured. Without a tie suit the
    * integrity check can never reject a shoe.
    */
  method MakeShoe(minTailStop: nat, minCards: nat, sig: Option<Suit>, tie: Option<Suit>,
                  lateDiff: int, maxAttempts: nat, deckPick: nat -> (nat -> nat),
                  rng: nat -> (nat -> (nat -> nat)), altPick: nat -> (nat -> nat),
                  colourRule: bool, pickFirst: nat -> bool, pick: nat -> nat)
    returns (o: ShoeOutcome)
    requires forall a: nat :: ValidPick(deckPick(a)) && ValidDraws(rng(a))
    requires ValidPick(pick)
    ensures o.Made? ==> Intact(Flatten(o.rounds) + o.tail)
    ensures o.Made? && colourRule ==> AllColoured(Shoe(RoundCards(o.rounds), o.tail))
    ensures o.Uncolourable? ==> o.msg in {QuotaShort, PoolShort}
    ensures tie.None? ==> !o.Broken?
  {
    var res := GenerateOrRetry(minTailStop, minCards, sig, tie, lateDiff, maxAttempts, deckPick, rng, altPick);
    if res.None? {
      return Exhausted;
    }
    var (rounds, tail, deck) := res.value;
    if colourRule {
      var r := ApplyColourRule(RoundCards(rounds), tail, pickFirst, pick);
      if r.Err? {
        return Uncolourable(r.msg);
      }
      var before := Shoe(RoundCards(rounds), tail);
      var after := Shoe(r.value.0, r.value.1);
      forall q | IsSlot(before, q) ensures Face(CardAt(before, q)) == Face(CardAt(after, q)) {
      }
      SameFacesBag(before, after);
      ShoeConcat(rounds, tail);
      var rs := Rebuild(rounds, r.value.0);
      assert RoundCards(rs) == r.value.0;
      ShoeConcat(rs, r.value.1);
      rounds, tail := rs, r.value.1;
    }
    var intact := CheckIntact(Flatten(rounds) + tail);
    if !intact {
      return Broken;
    }
    return Made(rounds, tail, deck);
  }
}

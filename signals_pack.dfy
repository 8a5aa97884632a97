// signals_ui.js `pack_all_sensitive_and_segment`: the natural scan, the
// reshuffle harvest with its last-round branch for six cards or fewer, the
// sort by start index, the residue round, and the T signal logic run inside
// the packer.

module SignalsPack {
  import opened Base
  import opened Cards
  import opened Engine
  import opened NestedEngine
  import opened Scan
  import opened Pool
  import opened WaaPack
  import opened JsPack
  import opened SignalCards
  import opened TSignal
  import opened TBalance
  import opened TSignalLogic

  /**
    * The last-round branch: the `n` first remaining cards, dealt from the
    * first one, form a sensitive round; its record is labelled with the
    * first card's position and marked A.
    */
  function LastRound(remaining: seq<Card>, n: nat, res: Outcome): Round
    requires n <= |remaining|
  {
    Round(At(if n > 0 then remaining[0].pos else 0), remaining[..n], Won(res), true, SegA, false, false)
  }

  /** The last-round record is a reshuffled round marked A, of cards not yet used. */
  lemma LastRoundFacts(deck: seq<Card>, used: set<int>, remaining: seq<Card>)
    requires remaining == Unused(deck, used) && Sensitive(SignalsSimulator, Points(remaining), 0)
    ensures Deal(SignalsSimulator, Points(remaining), 0).Some?
    ensures Deal(SignalsSimulator, Points(remaining), 0).value.len <= |remaining|
    ensures CandidateRound(SIGNALS_VARIANT,
              LastRound(remaining, Deal(SignalsSimulator, Points(remaining), 0).value.len,
                        HandOutcome(Deal(SignalsSimulator, Points(remaining), 0).value)).(segment := NoSegment))
    ensures multiset(remaining[..Deal(SignalsSimulator, Points(remaining), 0).value.len]) <= multiset(Unused(deck, used))
    ensures forall c :: c in remaining[..Deal(SignalsSimulator, Points(remaining), 0).value.len] ==> c.pos !in used
  {
    SliceSelfSensitive(SignalsSimulator, remaining, 0);
    SensitiveNeedsFourCards(SignalsSimulator, Points(remaining), 0);
    var h := Deal(SignalsSimulator, Points(remaining), 0).value;
    var cs := remaining[..h.len];
    assert remaining[0..0 + h.len] == cs;
    assert SelfSensitive(SignalsSimulator, cs) && Deal(SignalsSimulator, Points(cs), 0) == Some(h);
    var r := LastRound(remaining, h.len, HandOutcome(h)).(segment := NoSegment);
    assert r.cards == cs && r.start == At(cs[0].pos);
    assert CandidateRound(SIGNALS_VARIANT, r);
    PrefixBag(remaining, h.len);
  }

  /**
    * `harvestAdditionalSensitiveRounds`: while more than six cards are
    * unused, reshuffle them and add the first round found that touches no
    * used position, counting the reshuffles that find nothing (the loop's
    * own `attempts` never grows; the 200th failure ends it). With six cards
    * or fewer left it ends: before that, if at least four remain, some
    * ordering of them is sensitive and the cards as they lie deal a
    * sensitive round from the first one, that round is added.
    */
  method Harvest(deck: seq<Card>, out0: seq<Round>, used0: set<int>, rng: nat -> (nat -> nat))
    returns (added: seq<Round>, used: set<int>, failures: nat)
    requires ValidDraws(rng) && Ledger(deck, out0, used0)
    ensures Ledger(deck, out0 + added, used)
    ensures MarkedCandidates(SIGNALS_VARIANT, added)
    ensures |Unused(deck, used)| <= SIGNALS_MIN_CARDS || failures == MAX_MULTI_PASS_ATTEMPTS
  {
    added, used, failures := [], used0, 0;
    assert out0 + added == out0;
    var k: nat := 0;
    while true
      invariant Ledger(deck, out0 + added, used)
      invariant MarkedCandidates(SIGNALS_VARIANT, added)
      invariant failures < MAX_MULTI_PASS_ATTEMPTS
      decreases |Unused(deck, used)|, MAX_MULTI_PASS_ATTEMPTS - failures
    {
      var remaining := Unused(deck, used);
      if |remaining| <= SIGNALS_MIN_CARDS {
        var can := CanFormSensitiveRound(remaining);
        if |remaining| >= 4 && can {
          var temp := Reindex(remaining);
          var last := SimulateRoundAsWritten(temp, 0, false);
          PointsOfCopies(remaining);
          if last.Some? && last.value.sensitive {
            RoundAtFields(SignalsSimulator, temp, 0);
            LastRoundFacts(deck, used, remaining);
            var h := Deal(SignalsSimulator, Points(remaining), 0).value;
            var r := LastRound(remaining, h.len, HandOutcome(h));
            CandidateHasFourCards(SIGNALS_VARIANT, r.(segment := NoSegment));
            ReinforceStep(deck, out0, added, used, r);
            MarkedCandidatesAppend(SIGNALS_VARIANT, added, r.(segment := NoSegment));
            assert ToSegmentA(r.(segment := NoSegment)) == r;
            added := added + [r];
            used := used + Positions(r.cards);
          }
        }
        break;
      }
      var picked := PickUnused(deck, used, SIGNALS_VARIANT, false, rng(k));
      k := k + 1;
      if picked.None? {
        failures := failures + 1;
        if failures >= MAX_MULTI_PASS_ATTEMPTS {
          break;
        }
        continue;
      }
      var r := picked.value;
      ReinforceStep(deck, out0, added, used, ToSegmentA(r));
      MarkedCandidatesAppend(SIGNALS_VARIANT, added, r);
      added := added + [ToSegmentA(r)];
      used := used + Positions(r.cards);
    }
  }

  /** `[...rounds].reverse().find(r => r.segment === 'C')`: the last segment C round, if any. */
  function LastC(rs: seq<Round>): (k: Option<nat>)
    ensures k.Some? ==> k.value < |rs| && rs[k.value].segment == SegC
    ensures k.Some? ==> forall j :: k.value < j < |rs| ==> rs[j].segment != SegC
    ensures k.None? <==> forall j :: 0 <= j < |rs| ==> rs[j].segment != SegC
  {
    if |rs| == 0 then None
    else if rs[|rs| - 1].segment == SegC then Some(|rs| - 1)
    else
      var k := LastC(rs[..|rs| - 1]);
      assert forall j :: 0 <= j < |rs| - 1 ==> rs[..|rs| - 1][j] == rs[j];
      k
  }

  /** `c_cards` after the T logic: the cards of the last segment C round, or none. */
  function CCards(rs: seq<Round>): seq<Card>
  {
    match LastC(rs)
    case Some(k) => rs[k].cards
    case None => []
  }

  lemma ClearTUnmarked(s: seq<Round>)
    requires forall k :: 0 <= k < |s| ==> !s[k].isT
    ensures ClearT(s) == s
  {
  }

  /** Rounds of segment A are natural or reshuffled rounds, and carry no T mark. */
  lemma ARoundUnmarked(deck: seq<Card>, rs: seq<Round>)
    requires forall x :: x in rs ==> ARound(deck, SIGNALS_VARIANT, x)
    ensures ClearT(rs) == rs
    ensures forall k :: 0 <= k < |rs| ==> rs[k].segment == SegA
  {
    forall k | 0 <= k < |rs|
      ensures !rs[k].isT && rs[k].segment == SegA
    {
      assert ARound(deck, SIGNALS_VARIANT, rs[k]);
    }
    ClearTUnmarked(rs);
  }

  lemma MarkedAll(deck: seq<Card>, rs: seq<Round>)
    requires MarkedCandidates(SIGNALS_VARIANT, rs)
    ensures forall x :: x in rs ==> ARound(deck, SIGNALS_VARIANT, x)
  {
    forall x | x in rs
      ensures ARound(deck, SIGNALS_VARIANT, x)
    {
      var k :| 0 <= k < |rs| && rs[k] == x;
      MarkedCandidatesAt(deck, SIGNALS_VARIANT, rs, k);
    }
  }

  /**
    * The new segment A after the T logic, from a segment A of natural or
    * reshuffled rounds: still such rounds, none a two-pairs tie, and no
    * more ties than two-pairs rounds.
    */
  lemma NewSegmentA(deck: seq<Card>, a: seq<Round>, used: set<int>, tail: seq<Card>,
                    out: seq<Round>, aAfter: seq<Round>, usedOut: set<int>, leftover: seq<Card>)
    requires forall x :: x in a ==> ARound(deck, SIGNALS_VARIANT, x)
    requires TLogicResult(a, used, tail, out, aAfter, usedOut, leftover)
    ensures forall x :: x in aAfter ==> ARound(deck, SIGNALS_VARIANT, x)
  {
    ARoundUnmarked(deck, a);
    var kept, removed := Phases(a).0, Phases(a).1;
    PhasesBalance(a);
    var added := AddedMarked(kept, removed, used, tail, out, aAfter, usedOut, leftover);
    MarkedAll(deck, added);
    forall x | x in aAfter
      ensures ARound(deck, SIGNALS_VARIANT, x)
    {
      if x in kept {
        assert x in multiset(kept);
        assert x in multiset(a);
      } else {
        assert x in added;
      }
    }
  }

  lemma AddedMarked(kept: seq<Round>, removed: seq<Round>, used: set<int>, tail: seq<Card>,
                    out: seq<Round>, aAfter: seq<Round>, usedOut: set<int>, leftover: seq<Card>)
    returns (added: seq<Round>)
    requires TLogicParts(kept, removed, used, tail, out, aAfter, usedOut, leftover)
    ensures aAfter == kept + added && MarkedCandidates(SIGNALS_VARIANT, added)
  {
    added := aAfter[|kept|..];
    assert aAfter == aAfter[..|kept|] + added;
  }

  /**
    * `pack_all_sensitive_and_segment` of signals_ui.js, with the draws of
    * the harvest and of the recycling as parameters. Segment A is the
    * natural rounds that do not overlap, then the harvested rounds, sorted
    * by start index; the T logic rebuilds it and the chained rounds (kept as
    * they were when it returns none); there is no segment B, and C is the
    * cards of the last segment C round. The new segment A holds natural or
    * reshuffled rounds, none a two-pairs tie, no more ties than two-pairs
    * rounds, and on a deck without repeated positions the rounds hold
    * exactly the deck, each card once.
    */
  method SignalsPackAndSegment(deck: seq<Card>, harvestDraws: nat -> (nat -> nat), recycleDraws: nat -> (nat -> nat))
    returns (s: Segmented)
    requires ValidDraws(harvestDraws) && ValidDraws(recycleDraws)
    ensures forall x :: x in s.a ==> ARound(deck, SIGNALS_VARIANT, x)
    ensures forall i :: 0 <= i < |s.a| ==> !Hits(TwoPairsTie, s.a[i])
    ensures CountOf(s.a, Is(TieKind)) <= CountOf(s.a, Is(TwoPairsKind))
    ensures s.b == [] && s.c == CCards(s.rounds) && s.cards == Flatten(s.rounds)
    ensures DistinctPositions(deck) ==> multiset(s.cards) == multiset(deck) && DistinctPositions(s.cards)
  {
    var scanned := ScanAllSensitiveRounds(SignalsSimulator, deck);
    forall k | 0 <= k < |scanned|
      ensures DeckSlice(deck, scanned[k].cards)
    {
      ScannedRoundSlice(SignalsSimulator, deck, scanned[k]);
    }
    var natural, used0 := KeepDisjointScans(deck, scanned);
    MarkALedger(deck, natural, used0);
    NaturalMarked(deck, SIGNALS_VARIANT, scanned, natural);
    var added, used, failures := Harvest(deck, MarkA(natural), used0, harvestDraws);
    var a := SortByStart(MarkA(natural) + added);
    SegmentAFacts(deck, SIGNALS_VARIANT, MarkA(natural), added);
    SortedLedger(deck, MarkA(natural) + added, used);
    var tail := Unused(deck, used);
    var processed, aAfter, usedOut, leftover := ApplyTSignalLogic(a, used, tail, recycleDraws);
    NewSegmentA(deck, a, used, tail, processed, aAfter, usedOut, leftover);
    SegmentABalanced(a, used, tail, processed, aAfter, usedOut, leftover);
    var rounds, c;
    if |processed| > 0 {
      rounds := processed;
      c := CCards(rounds);
      if DistinctPositions(deck) {
        TLogicConserves(deck, a, used, tail, processed, aAfter, usedOut, leftover);
      }
    } else {
      rounds := a + ResidueRounds(tail);
      c := tail;
      ResidueKept(deck, a, used, tail);
    }
    s := Segmented(aAfter, [], c, rounds, Flatten(rounds));
  }

  /** The fallback chain: segment A then the residue round of the tail. */
  lemma ResidueKept(deck: seq<Card>, a: seq<Round>, used: set<int>, tail: seq<Card>)
    requires forall x :: x in a ==> ARound(deck, SIGNALS_VARIANT, x)
    requires Ledger(deck, a, used) && tail == Unused(deck, used)
    ensures CCards(a + ResidueRounds(tail)) == tail
    ensures DistinctPositions(deck) ==> multiset(Flatten(a + ResidueRounds(tail))) == multiset(deck)
                                        && DistinctPositions(Flatten(a + ResidueRounds(tail)))
  {
    ARoundUnmarked(deck, a);
    ResidueLast(a, tail);
    if DistinctPositions(deck) {
      var rs := a + ResidueRounds(tail);
      assert multiset(Flatten(rs)) == multiset(Flatten(a)) + multiset(tail) by {
        FlattenConcat(a, ResidueRounds(tail));
      }
      SubBagDistinct(Flatten(rs), deck);
    }
  }

  lemma ResidueLast(a: seq<Round>, tail: seq<Card>)
    requires forall k :: 0 <= k < |a| ==> a[k].segment == SegA
    ensures CCards(a + ResidueRounds(tail)) == tail
  {
    var rs := a + ResidueRounds(tail);
    if |tail| > 0 {
      assert rs[|rs| - 1] == ResidueRound(tail);
    } else {
      assert rs == a;
    }
  }
}

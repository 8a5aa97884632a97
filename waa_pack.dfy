// go/waa.py `pack_all_sensitive_once`: keep the natural sensitive rounds of
// the shoe that do not overlap, reinforce with reshuffled rounds of the
// unused cards until few are left, and turn the tail into one more
// sensitive round.

module WaaPack {
  import opened Base
  import opened Cards
  import opened Engine
  import opened Shuffle
  import opened Scan
  import opened Tail
  import opened Pool

  /** Reinforcement stops once fewer than this many cards are left. */
  const MIN_TAIL_STOP: nat := 7
  /** The smallest pool the reinforcement reshuffles. */
  const MULTI_PASS_MIN_CARDS: nat := 4
  /** No manual tail order is configured. */
  const MANUAL_TAIL: seq<string> := []

  /** Every draw function handed to the reshuffles is a legal one. */
  ghost predicate ValidDraws(rng: nat -> (nat -> nat))
  {
    forall k: nat :: ValidPick(rng(k))
  }

  /** A round the packer keeps: a natural round of the deck or a reshuffled one. */
  predicate PackedRound(deck: seq<Card>, r: Round)
  {
    ScannedRound(WaaSimulator, deck, r) || CandidateRound(WAA_VARIANT, r)
  }

  /**
    * The packer's ledger: the rounds are disjoint, `used` is exactly their
    * positions, and on a deck without repeated positions the rounds and the
    * unused cards together are the deck.
    */
  predicate Ledger(deck: seq<Card>, out: seq<Round>, used: set<int>)
  {
    PairwiseDisjoint(out) && used == RoundPositions(out)
    && (DistinctPositions(deck) ==> multiset(Flatten(out)) + multiset(Unused(deck, used)) == multiset(deck))
  }

  lemma EmptyLedger(deck: seq<Card>)
    ensures Ledger(deck, [], {})
  {
    UnusedOfNothing(deck);
  }

  /** Appending a round of unused cards keeps the ledger. */
  lemma LedgerAppend(deck: seq<Card>, out: seq<Round>, used: set<int>, r: Round)
    requires Ledger(deck, out, used)
    requires forall c :: c in r.cards ==> c.pos !in used
    requires multiset(r.cards) <= multiset(Unused(deck, used))
    ensures Ledger(deck, out + [r], used + Positions(r.cards))
  {
    DisjointAppend(out, r);
    RoundPositionsAppend(out, r);
    FlattenAppend(out, r);
    if DistinctPositions(deck) {
      UnusedRemove(deck, used, multiset(r.cards));
      BagPositionsOfSeq(r.cards);
    }
  }

  /** The cards form one contiguous slice of the deck. */
  predicate DeckSlice(deck: seq<Card>, cs: seq<Card>)
  {
    exists i: nat, j: nat :: i <= j <= |deck| && cs == deck[i..j]
  }

  /** A natural round's cards are the deck slice it was dealt from. */
  lemma ScannedRoundSlice(sim: Simulator, deck: seq<Card>, r: Round)
    requires ScannedRound(sim, deck, r)
    ensures DeckSlice(deck, r.cards)
  {
    RoundAtFields(sim, deck, r.start.index);
  }

  /** Some card of `r` sits at a used position. */
  predicate Overlaps(r: Round, used: set<int>)
  {
    exists c :: c in r.cards && c.pos in used
  }

  /**
    * Step 1 of the packer: walk the natural rounds in order and keep each one
    * none of whose positions is used yet. A round left out overlaps a kept one.
    */
  method KeepDisjointScans(deck: seq<Card>, scanned: seq<Round>) returns (out: seq<Round>, used: set<int>)
    requires forall k :: 0 <= k < |scanned| ==> DeckSlice(deck, scanned[k].cards)
    ensures Ledger(deck, out, used)
    ensures forall x :: x in out ==> x in scanned
    ensures forall k :: 0 <= k < |scanned| ==> scanned[k] in out || Overlaps(scanned[k], used)
  {
    out, used := [], {};
    EmptyLedger(deck);
    for k := 0 to |scanned|
      invariant KeepInv(deck, scanned, out, used, k)
    {
      out, used := KeepOne(deck, scanned, out, used, k);
    }
  }

  /** The loop invariant of step 1 after the first `k` natural rounds. */
  ghost predicate KeepInv(deck: seq<Card>, scanned: seq<Round>, out: seq<Round>, used: set<int>, k: nat)
  {
    && k <= |scanned|
    && Ledger(deck, out, used)
    && (forall x :: x in out ==> x in scanned[..k])
    && (forall j :: 0 <= j < k ==> scanned[j] in out || Overlaps(scanned[j], used))
  }

  /** Step 1 for the natural round `scanned[k]`: kept unless one of its positions is used. */
  method KeepOne(deck: seq<Card>, scanned: seq<Round>, out: seq<Round>, used: set<int>, k: nat)
    returns (out': seq<Round>, used': set<int>)
    requires k < |scanned| && DeckSlice(deck, scanned[k].cards) && KeepInv(deck, scanned, out, used, k)
    ensures KeepInv(deck, scanned, out', used', k + 1)
  {
    var r := scanned[k];
    if exists c :: c in r.cards && c.pos in used {
      KeepSkip(deck, scanned, out, used, k);
      return out, used;
    }
    var i: nat, j: nat :| i <= j <= |deck| && r.cards == deck[i..j];
    SliceOfUnused(deck, i, j, used);
    LedgerAppend(deck, out, used, r);
    KeepTake(deck, scanned, out, used, k);
    out', used' := out + [r], used + Positions(r.cards);
  }

  lemma KeepSkip(deck: seq<Card>, scanned: seq<Round>, out: seq<Round>, used: set<int>, k: nat)
    requires k < |scanned| && KeepInv(deck, scanned, out, used, k) && Overlaps(scanned[k], used)
    ensures KeepInv(deck, scanned, out, used, k + 1)
  {
    forall x | x in out ensures x in scanned[..k + 1] {
      assert x in scanned[..k];
    }
  }

  lemma KeepTake(deck: seq<Card>, scanned: seq<Round>, out: seq<Round>, used: set<int>, k: nat)
    requires k < |scanned| && KeepInv(deck, scanned, out, used, k)
    requires Ledger(deck, out + [scanned[k]], used + Positions(scanned[k].cards))
    ensures KeepInv(deck, scanned, out + [scanned[k]], used + Positions(scanned[k].cards), k + 1)
  {
    var r, used' := scanned[k], used + Positions(scanned[k].cards);
    forall x | x in out + [r] ensures x in scanned[..k + 1] {
      if x in out {
        assert x in scanned[..k];
      } else {
        assert scanned[..k + 1][k] == r;
      }
    }
    forall j | 0 <= j < k + 1 ensures scanned[j] in out + [r] || Overlaps(scanned[j], used') {
      if j < k && !(scanned[j] in out) {
        var c :| c in scanned[j].cards && c.pos in used;
      }
    }
  }

  /** Every round of the list is a reshuffled round. */
  predicate AllCandidates(rs: seq<Round>)
  {
    |rs| == 0 || (CandidateRound(WAA_VARIANT, rs[0]) && AllCandidates(rs[1..]))
  }

  lemma {:induction false} AllCandidatesAppend(rs: seq<Round>, r: Round)
    requires AllCandidates(rs) && CandidateRound(WAA_VARIANT, r)
    ensures AllCandidates(rs + [r])
  {
    if |rs| > 0 {
      assert (rs + [r])[1..] == rs[1..] + [r];
      AllCandidatesAppend(rs[1..], r);
    } else {
      assert ([] + [r])[1..] == [];
    }
  }

  lemma {:induction false} AllCandidatesAt(rs: seq<Round>, k: nat)
    requires AllCandidates(rs) && k < |rs|
    ensures CandidateRound(WAA_VARIANT, rs[k])
  {
    if k > 0 {
      AllCandidatesAt(rs[1..], k - 1);
    }
  }

  /**
    * One reinforcement attempt: reshuffle the unused cards with the draws
    * `pick` and take the first round found, unless it touches a used position.
    * Nothing is taken exactly when the reshuffle offers no round: the round
    * offered first is made of unused cards, so it never touches a used
    * position. A round taken is a reshuffled round of at least four unused
    * cards.
    */
  method ReinforceOnce(deck: seq<Card>, used: set<int>, pick: nat -> nat) returns (picked: Option<Round>)
    requires ValidPick(pick)
    ensures picked.None? <==> Rescanned(WAA_VARIANT, Unused(deck, used), pick) == []
    ensures picked.Some? ==> picked.value == Rescanned(WAA_VARIANT, Unused(deck, used), pick)[0]
    ensures picked.Some? ==> CandidateRound(WAA_VARIANT, picked.value)
    ensures picked.Some? ==> |picked.value.cards| >= 4
    ensures picked.Some? ==> multiset(picked.value.cards) <= multiset(Unused(deck, used))
    ensures picked.Some? ==> forall c :: c in picked.value.cards ==> c.pos !in used
  {
    var remaining := Unused(deck, used);
    var cands := MultiPassCandidates(WAA_VARIANT, remaining, pick);
    if |cands| == 0 {
      return None;
    }
    var p := cands[0];
    PickedFromPool(cands, remaining);
    UnusedCardsUnused(p.cards, deck, used);
    if exists c :: c in p.cards && c.pos in used {
      assert false;
    }
    return Some(p);
  }

  /** Cards drawn from the unused ones sit at unused positions. */
  lemma UnusedCardsUnused(cs: seq<Card>, deck: seq<Card>, used: set<int>)
    requires multiset(cs) <= multiset(Unused(deck, used))
    ensures forall c :: c in cs ==> c.pos !in used
  {
    forall c | c in cs
      ensures c.pos !in used
    {
      assert c in multiset(Unused(deck, used));
    }
  }

  /** A reshuffled round has at least four cards, all from the pool it was found in. */
  lemma PickedFromPool(cands: seq<Round>, pool: seq<Card>)
    requires |cands| > 0 && CandidateRound(WAA_VARIANT, cands[0])
    requires multiset(Flatten(cands)) <= multiset(pool)
    ensures multiset(cands[0].cards) <= multiset(pool)
    ensures |cands[0].cards| >= 4
  {
    assert Flatten(cands) == cands[0].cards + Flatten(cands[1..]);
  }

  /** Keeping a round of unused cards keeps the ledger and uses up at least one card. */
  lemma ReinforceStep(deck: seq<Card>, out0: seq<Round>, added: seq<Round>, used: set<int>, r: Round)
    requires Ledger(deck, out0 + added, used) && |r.cards| >= 4
    requires multiset(r.cards) <= multiset(Unused(deck, used))
    requires forall c :: c in r.cards ==> c.pos !in used
    ensures Ledger(deck, out0 + (added + [r]), used + Positions(r.cards))
    ensures |Unused(deck, used + Positions(r.cards))| < |Unused(deck, used)|
  {
    RoundShrinksPool(deck, used, r);
    LedgerAppend(deck, out0 + added, used, r);
    AppendAssoc(out0, added, [r]);
  }

  lemma AppendAssoc<T>(a: seq<T>, b: seq<T>, c: seq<T>)
    ensures (a + b) + c == a + (b + c)
  {
  }

  /** A round of unused cards uses up at least one of them. */
  lemma RoundShrinksPool(deck: seq<Card>, used: set<int>, r: Round)
    requires |r.cards| > 0 && multiset(r.cards) <= multiset(Unused(deck, used))
    requires forall c :: c in r.cards ==> c.pos !in used
    ensures |Unused(deck, used + Positions(r.cards))| < |Unused(deck, used)|
  {
    var c := r.cards[0];
    assert c in multiset(Unused(deck, used));
    UnusedShrinks(deck, used, Positions(r.cards), c);
  }

  /**
    * Step 2 of the packer: while enough cards are unused, reshuffle them with
    * the next draws and keep the first round found. It stops when too few
    * cards are left, when a reshuffle finds nothing, or when the round found
    * touches a used position. The rounds added follow the natural ones, and
    * the attempt after the last round added used the draws `rng(|added|)`.
    */
  method Reinforce(deck: seq<Card>, out0: seq<Round>, used0: set<int>, minTailStop: nat, minCards: nat,
                   rng: nat -> (nat -> nat))
    returns (added: seq<Round>, used: set<int>)
    requires ValidDraws(rng) && Ledger(deck, out0, used0)
    ensures Ledger(deck, out0 + added, used)
    ensures AllCandidates(added)
    ensures |Unused(deck, used)| < minCards || |Unused(deck, used)| < minTailStop
            || Rescanned(WAA_VARIANT, Unused(deck, used), rng(|added|)) == []
  {
    added, used := [], used0;
    assert out0 + added == out0;
    var k: nat := 0;
    while true
      invariant Ledger(deck, out0 + added, used)
      invariant AllCandidates(added)
      invariant k == |added|
      decreases |Unused(deck, used)|
    {
      var remaining := Unused(deck, used);
      if |remaining| < minCards || |remaining| < minTailStop {
        break;
      }
      var picked := ReinforceOnce(deck, used, rng(k));
      k := k + 1;
      if picked.None? {
        break;
      }
      var r := picked.value;
      ReinforceStep(deck, out0, added, used, r);
      AllCandidatesAppend(added, r);
      added := added + [r];
      used := used + Positions(r.cards);
    }
  }

  /**
    * Step 3 of the packer: a tail of 0, 4, 5 or 6 cards is accepted; an empty
    * one as it is, any other rearranged by the manual face order when that
    * works, else by the automatic search. `None` means that the tail has a
    * bad size or that no ordering of its cards is a sensitive round.
    */
  method FinishTail(tail: seq<Card>, manual: seq<string>) returns (r: Option<seq<Card>>)
    ensures r.None? <==> !(|tail| in {0, 4, 5, 6})
                         || (|tail| > 0 && forall p :: multiset(p) == multiset(tail) ==> !SensitiveSequence(p))
    ensures r.Some? ==> multiset(r.value) == multiset(tail)
    ensures r.Some? && |tail| > 0 ==> SensitiveSequence(r.value)
    ensures r.Some? && |tail| > 0 && TryManualTail(tail, manual).Some? ==> r == TryManualTail(tail, manual)
  {
    if !(|tail| in {0, 4, 5, 6}) {
      return None;
    }
    if |tail| == 0 {
      return Some([]);
    }
    var m := TryManualTail(tail, manual);
    if m.Some? {
      return m;
    }
    r := TryMakeTailSensitive(tail);
  }

  /** Membership in the sorted list is membership in the list. */
  lemma SortedMembers(rs: seq<Round>)
    ensures forall x :: x in SortByStart(rs) ==> x in rs
  {
    SortByStartBag(rs);
    forall x | x in SortByStart(rs)
      ensures x in rs
    {
      assert x in multiset(SortByStart(rs));
    }
  }

  /**
    * `pack_all_sensitive_once`: on success, disjoint sensitive rounds and a
    * tail that holds exactly the cards of no round; the tail has 0, 4, 5 or
    * 6 cards, and when it is not empty it is itself a sensitive round and
    * the rounds are sorted by start index. On a deck without repeated
    * positions the rounds and the tail are exactly the deck. `tail0` is what
    * the reinforcement left unused, which stopped because too few cards were
    * left or because the reshuffle with the draws `rng(draws)` offered no
    * round. The pack fails exactly when `tail0` has a bad size or no
    * ordering of its cards is a sensitive round; otherwise the tail is
    * `tail0` reordered.
    */
  method PackAllSensitiveOnce(deck: seq<Card>, minTailStop: nat, minCards: nat, manual: seq<string>,
                              rng: nat -> (nat -> nat))
    returns (res: Option<(seq<Round>, seq<Card>)>, ghost tail0: seq<Card>, ghost draws: nat)
    requires ValidDraws(rng)
    ensures res.Some? ==> PackedShoe(deck, res.value.0, res.value.1)
    ensures res.None? <==> !(|tail0| in {0, 4, 5, 6})
                           || (|tail0| > 0 && forall p :: multiset(p) == multiset(tail0) ==> !SensitiveSequence(p))
    ensures res.Some? ==> multiset(res.value.1) == multiset(tail0)
    ensures |tail0| < minCards || |tail0| < minTailStop || Rescanned(WAA_VARIANT, tail0, rng(draws)) == []
  {
    var scanned := ScanAllSensitiveRounds(WaaSimulator, deck);
    forall k | 0 <= k < |scanned|
      ensures DeckSlice(deck, scanned[k].cards)
    {
      ScannedRoundSlice(WaaSimulator, deck, scanned[k]);
    }
    var natural, used := KeepDisjointScans(deck, scanned);
    var added;
    added, used := Reinforce(deck, natural, used, minTailStop, minCards, rng);
    var out := natural + added;
    KeptRounds(deck, scanned, natural, added);
    var tail := Unused(deck, used);
    tail0, draws := tail, |added|;
    var fin := FinishTail(tail, manual);
    if fin.None? {
      res := None;
      return;
    }
    if |tail| == 0 {
      PackedFacts(deck, out, used, tail, []);
      res := Some((out, []));
      return;
    }
    var sorted := SortByStart(out);
    SortedFacts(deck, out);
    PackedFacts(deck, sorted, used, tail, fin.value);
    res := Some((sorted, fin.value));
  }

  /** What a successful pack promises about its rounds and tail. */
  ghost predicate PackedShoe(deck: seq<Card>, rounds: seq<Round>, tail: seq<Card>)
  {
    PairwiseDisjoint(rounds)
    && (forall x :: x in rounds ==> PackedRound(deck, x))
    && |tail| in {0, 4, 5, 6}
    && (|tail| > 0 ==> SortedByStart(rounds) && SensitiveSequence(tail))
    && (forall c :: c in tail <==> c in deck && c.pos !in RoundPositions(rounds))
    && (DistinctPositions(deck) ==> multiset(Flatten(rounds) + tail) == multiset(deck))
  }

  lemma KeptRounds(deck: seq<Card>, scanned: seq<Round>, natural: seq<Round>, added: seq<Round>)
    requires forall k :: 0 <= k < |scanned| ==> ScannedRound(WaaSimulator, deck, scanned[k])
    requires forall x :: x in natural ==> x in scanned
    requires AllCandidates(added)
    ensures forall x :: x in natural + added ==> PackedRound(deck, x)
  {
    forall x | x in natural + added
      ensures PackedRound(deck, x)
    {
      if x !in natural {
        var k :| 0 <= k < |added| && added[k] == x;
        AllCandidatesAt(added, k);
      }
    }
  }

  lemma SortedFacts(deck: seq<Card>, out: seq<Round>)
    requires forall x :: x in out ==> PackedRound(deck, x)
    ensures SortedByStart(SortByStart(out))
    ensures multiset(Flatten(SortByStart(out))) == multiset(Flatten(out))
    ensures RoundPositions(SortByStart(out)) == RoundPositions(out)
    ensures PairwiseDisjoint(out) ==> PairwiseDisjoint(SortByStart(out))
    ensures forall x :: x in SortByStart(out) ==> PackedRound(deck, x)
  {
    SortByStartBag(out);
    SortByStartSorted(out);
    SortByStartPositions(out);
    forall x | x in SortByStart(out)
      ensures x in out
    {
      assert x in multiset(SortByStart(out));
    }
  }

  lemma PackedFacts(deck: seq<Card>, rounds: seq<Round>, used: set<int>, tail: seq<Card>, fin: seq<Card>)
    requires tail == Unused(deck, used) && used == RoundPositions(rounds) && PairwiseDisjoint(rounds)
    requires forall x :: x in rounds ==> PackedRound(deck, x)
    requires DistinctPositions(deck) ==> multiset(Flatten(rounds)) + multiset(tail) == multiset(deck)
    requires multiset(fin) == multiset(tail) && |tail| in {0, 4, 5, 6}
    requires |tail| > 0 ==> SortedByStart(rounds) && SensitiveSequence(fin)
    ensures PackedShoe(deck, rounds, fin)
  {
    assert |fin| == |tail| by {
      assert |multiset(fin)| == |multiset(tail)|;
    }
    forall c
      ensures c in fin <==> c in tail
    {
      assert c in fin <==> c in multiset(fin);
      assert c in tail <==> c in multiset(tail);
    }
  }
}

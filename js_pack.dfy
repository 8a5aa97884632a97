// script.js and red-zero-signal-test.js `pack_all_sensitive_and_segment`:
// keep the natural sensitive rounds that do not overlap as segment A,
// reinforce segment A with reshuffled rounds of the unused cards, sort it,
// split the rest into segment B rounds and the residue C, and chain all of it.

module JsPack {
  import opened Base
  import opened Cards
  import opened Engine
  import opened Shuffle
  import opened Scan
  import opened Pool
  import opened WaaPack
  import opened JsSegments

  /** Reshuffles that find nothing before the reinforcement gives up. */
  const MAX_MULTI_PASS_ATTEMPTS: nat := 200

  /**
    * What differs between the two copies of the packer: the pool size below
    * which the reinforcement stops, the variant of the reshuffle it calls
    * (which also names the Simulator the file deals with), and whether a
    * segment B round is labelled with its first card.
    */
  datatype PackVariant = PackVariant(minCards: nat, multiPass: MultiPassVariant, bFirstCardStart: bool)

  /** script.js: `CONFIG.MULTI_PASS_MIN_CARDS` is 15. */
  const SCRIPT_PACK := PackVariant(15, SCRIPT_VARIANT, false)
  /** red-zero-signal-test.js: a local `MULTI_PASS_MIN_CARDS` of 6, and its copy of the signals.js Simulator. */
  const RED_ZERO_PACK := PackVariant(6, RED_ZERO_VARIANT, true)

  /** The result of the packer: the three segments, the chained rounds and their cards. */
  datatype Segmented = Segmented(a: seq<Round>, b: seq<Round>, c: seq<Card>, rounds: seq<Round>, cards: seq<Card>)

  /** `r.segment = 'A'`. */
  function ToSegmentA(r: Round): Round
  {
    r.(segment := SegA)
  }

  function MarkA(rs: seq<Round>): seq<Round>
  {
    seq(|rs|, i requires 0 <= i < |rs| => ToSegmentA(rs[i]))
  }

  /** A segment A round: a natural round of the deck or a reshuffled one, marked A. */
  predicate ARound(deck: seq<Card>, v: MultiPassVariant, r: Round)
  {
    r.segment == SegA
    && (ScannedRound(v.sim, deck, r.(segment := NoSegment)) || CandidateRound(v, r.(segment := NoSegment)))
  }

  /** Every round of the list is a reshuffled round marked A. */
  predicate MarkedCandidates(v: MultiPassVariant, rs: seq<Round>)
  {
    |rs| == 0
    || (rs[0].segment == SegA && CandidateRound(v, rs[0].(segment := NoSegment)) && MarkedCandidates(v, rs[1..]))
  }

  lemma {:induction false} MarkedCandidatesAppend(v: MultiPassVariant, rs: seq<Round>, r: Round)
    requires MarkedCandidates(v, rs) && CandidateRound(v, r)
    ensures MarkedCandidates(v, rs + [ToSegmentA(r)])
  {
    if |rs| > 0 {
      assert (rs + [ToSegmentA(r)])[1..] == rs[1..] + [ToSegmentA(r)];
      MarkedCandidatesAppend(v, rs[1..], r);
    } else {
      assert ToSegmentA(r).(segment := NoSegment) == r;
      assert (rs + [ToSegmentA(r)])[1..] == [];
    }
  }

  lemma {:induction false} MarkedCandidatesAt(deck: seq<Card>, v: MultiPassVariant, rs: seq<Round>, k: nat)
    requires MarkedCandidates(v, rs) && k < |rs|
    ensures ARound(deck, v, rs[k])
  {
    if k > 0 {
      MarkedCandidatesAt(deck, v, rs[1..], k - 1);
    }
  }

  /** The callback of `find`: a round with cards, none of them at a used position (and, if asked, no tie). */
  predicate Fits(r: Round, used: set<int>, skipTies: bool)
  {
    |r.cards| > 0 && (forall c :: c in r.cards ==> c.pos !in used) && !(skipTies && IsTieLabel(r.result))
  }

  /** `Array.prototype.find` from index `from`: the first round that fits, if any. */
  function FirstFit(cands: seq<Round>, used: set<int>, skipTies: bool, from: nat): (k: Option<nat>)
    requires from <= |cands|
    ensures k.Some? ==> from <= k.value < |cands| && Fits(cands[k.value], used, skipTies)
    ensures k.Some? ==> forall j :: from <= j < k.value ==> !Fits(cands[j], used, skipTies)
    ensures k.None? <==> forall j :: from <= j < |cands| ==> !Fits(cands[j], used, skipTies)
    decreases |cands| - from
  {
    if from == |cands| then None
    else if Fits(cands[from], used, skipTies) then Some(from)
    else FirstFit(cands, used, skipTies, from + 1)
  }

  /** One round of a list holds no card the whole list does not hold. */
  lemma {:induction false} FlattenMember(rs: seq<Round>, k: nat)
    requires k < |rs|
    ensures multiset(rs[k].cards) <= multiset(Flatten(rs))
  {
    assert Flatten(rs) == rs[0].cards + Flatten(rs[1..]);
    if k > 0 {
      FlattenMember(rs[1..], k - 1);
    }
  }

  lemma CandidateHasFourCards(v: MultiPassVariant, r: Round)
    requires CandidateRound(v, r)
    ensures |r.cards| >= 4
  {
    SensitiveNeedsFourCards(v.sim, Points(r.cards), 0);
  }

  /**
    * One reinforcement attempt: reshuffle the unused cards with the draws
    * `pick` and take the first round found that has cards and touches no used
    * position. A round taken is a reshuffled round of at least four unused cards.
    */
  method PickUnused(deck: seq<Card>, used: set<int>, v: MultiPassVariant, skipTies: bool, pick: nat -> nat)
    returns (picked: Option<Round>)
    requires ValidPick(pick)
    ensures |Unused(deck, used)| < v.minPool ==> picked.None?
    ensures picked.Some? ==> CandidateRound(v, picked.value) && |picked.value.cards| >= 4
    ensures picked.Some? ==> !(skipTies && IsTieLabel(picked.value.result))
    ensures picked.Some? ==> multiset(picked.value.cards) <= multiset(Unused(deck, used))
    ensures picked.Some? ==> forall c :: c in picked.value.cards ==> c.pos !in used
  {
    var remaining := Unused(deck, used);
    var cands := MultiPassCandidates(v, remaining, pick);
    var k := FirstFit(cands, used, skipTies, 0);
    if k.None? {
      return None;
    }
    var r := cands[k.value];
    FlattenMember(cands, k.value);
    CandidateHasFourCards(v, r);
    return Some(r);
  }

  /**
    * Step 2 of the packer: while at least `minCards` cards are unused,
    * reshuffle them and add the first fitting round, marked A. A reshuffle
    * that finds nothing counts as a failure, and the 200th failure ends it.
    * (The source tests the picked round against the used positions once more
    * before taking it; `find` has already excluded that.)
    */
  method JsReinforce(deck: seq<Card>, out0: seq<Round>, used0: set<int>, pv: PackVariant,
                     rng: nat -> (nat -> nat))
    returns (added: seq<Round>, used: set<int>, failures: nat)
    requires ValidDraws(rng) && Ledger(deck, out0, used0)
    ensures Ledger(deck, out0 + added, used)
    ensures MarkedCandidates(pv.multiPass, added)
    ensures |Unused(deck, used)| < pv.minCards || failures == MAX_MULTI_PASS_ATTEMPTS
  {
    added, used, failures := [], used0, 0;
    assert out0 + added == out0;
    var k: nat := 0;
    while true
      invariant Ledger(deck, out0 + added, used)
      invariant MarkedCandidates(pv.multiPass, added)
      invariant failures < MAX_MULTI_PASS_ATTEMPTS
      decreases |Unused(deck, used)|, MAX_MULTI_PASS_ATTEMPTS - failures
    {
      var remaining := Unused(deck, used);
      if |remaining| < pv.minCards {
        break;
      }
      var picked := PickUnused(deck, used, pv.multiPass, false, rng(k));
      k := k + 1;
      if picked.None? {
        failures := failures + 1;
        if failures >= MAX_MULTI_PASS_ATTEMPTS {
          break;
        }
        continue;
      }
      var r := picked.value;
      ReinforceStep(deck, out0, added, used, ToSegmentA(r));
      MarkedCandidatesAppend(pv.multiPass, added, r);
      added := added + [ToSegmentA(r)];
      used := used + Positions(r.cards);
    }
  }

  /** Marking rounds A changes no card. */
  lemma {:induction false} MarkAFlatten(rs: seq<Round>)
    ensures Flatten(MarkA(rs)) == Flatten(rs)
  {
    if |rs| > 0 {
      assert MarkA(rs)[1..] == MarkA(rs[1..]);
      MarkAFlatten(rs[1..]);
    }
  }

  lemma MarkALedger(deck: seq<Card>, rs: seq<Round>, used: set<int>)
    requires Ledger(deck, rs, used)
    ensures Ledger(deck, MarkA(rs), used)
  {
    MarkAFlatten(rs);
    assert RoundPositions(MarkA(rs)) == RoundPositions(rs) by {
      assert forall i :: 0 <= i < |rs| ==> MarkA(rs)[i].cards == rs[i].cards;
    }
  }

  /** The kept natural rounds, marked A, are segment A rounds. */
  lemma NaturalMarked(deck: seq<Card>, v: MultiPassVariant, scanned: seq<Round>, natural: seq<Round>)
    requires forall k :: 0 <= k < |scanned| ==> ScannedRound(v.sim, deck, scanned[k])
    requires forall x :: x in natural ==> x in scanned
    ensures forall x :: x in MarkA(natural) ==> ARound(deck, v, x)
  {
    forall x | x in MarkA(natural)
      ensures ARound(deck, v, x)
    {
      var i :| 0 <= i < |natural| && MarkA(natural)[i] == x;
      var n := natural[i];
      assert n in scanned;
      var k :| 0 <= k < |scanned| && scanned[k] == n;
      RoundAtFields(v.sim, deck, n.start.index);
      assert x.(segment := NoSegment) == n;
    }
  }

  lemma SegmentAFacts(deck: seq<Card>, v: MultiPassVariant, natural: seq<Round>, added: seq<Round>)
    requires forall x :: x in natural ==> ARound(deck, v, x)
    requires MarkedCandidates(v, added)
    ensures forall x :: x in SortByStart(natural + added) ==> ARound(deck, v, x)
    ensures SortedByStart(SortByStart(natural + added))
  {
    SortedMembers(natural + added);
    SortByStartSorted(natural + added);
    forall x | x in natural + added
      ensures ARound(deck, v, x)
    {
      if x !in natural {
        var k :| 0 <= k < |added| && added[k] == x;
        MarkedCandidatesAt(deck, v, added, k);
      }
    }
  }

  /** Sorting keeps the ledger. */
  lemma SortedLedger(deck: seq<Card>, rs: seq<Round>, used: set<int>)
    requires Ledger(deck, rs, used)
    ensures Ledger(deck, SortByStart(rs), used)
  {
    SortByStartBag(rs);
    SortByStartPositions(rs);
  }

  /** The smallest position among the cards. */
  function MinPos(cs: seq<Card>): (m: int)
    requires |cs| > 0
    ensures m in Positions(cs)
    ensures forall c :: c in cs ==> m <= c.pos
  {
    if |cs| == 1 then cs[0].pos
    else
      var rest := MinPos(cs[1..]);
      assert forall c :: c in cs ==> c == cs[0] || c in cs[1..];
      if cs[0].pos <= rest then cs[0].pos else rest
  }

  /**
    * The residue round: labelled with the smallest position of its cards
    * (`Math.min(...) || 0` is that minimum, as `0 || 0` is 0), no result,
    * segment C.
    */
  function ResidueRound(cs: seq<Card>): Round
    requires |cs| > 0
  {
    Round(At(MinPos(cs)), cs, Residue, false, SegC, false, false)
  }

  /** The residue, as a list of zero or one rounds. */
  function ResidueRounds(cs: seq<Card>): (rs: seq<Round>)
    ensures Flatten(rs) == cs
    ensures |rs| <= 1
  {
    if |cs| > 0 then
      assert Flatten([ResidueRound(cs)]) == cs + Flatten([]);
      [ResidueRound(cs)]
    else []
  }

  lemma ConcatDisjoint(xs: seq<Round>, ys: seq<Round>)
    requires PairwiseDisjoint(xs) && PairwiseDisjoint(ys)
    requires RoundPositions(xs) !! RoundPositions(ys)
    ensures PairwiseDisjoint(xs + ys)
  {
    var zs := xs + ys;
    forall i, j | 0 <= i < j < |zs|
      ensures Positions(zs[i].cards) !! Positions(zs[j].cards)
    {
      if j < |xs| {
        assert zs[i] == xs[i] && zs[j] == xs[j];
      } else if i >= |xs| {
        assert zs[i] == ys[i - |xs|] && zs[j] == ys[j - |xs|];
      } else {
        assert zs[i] == xs[i] && zs[j] == ys[j - |xs|];
      }
    }
  }

  lemma {:induction false} UnusedDistinct(deck: seq<Card>, used: set<int>)
    requires DistinctPositions(deck)
    ensures DistinctPositions(Unused(deck, used))
  {
    if |deck| > 0 {
      DistinctUncons(deck);
      UnusedDistinct(deck[1..], used);
      var rest := Unused(deck[1..], used);
      if deck[0].pos !in used {
        var u := [deck[0]] + rest;
        assert Unused(deck, used) == u;
        forall i, j | 0 <= i < j < |u|
          ensures u[i].pos != u[j].pos
        {
          if i == 0 {
            assert u[j] in rest;
          } else {
            assert u[i] == rest[i - 1] && u[j] == rest[j - 1];
          }
        }
      } else {
        assert Unused(deck, used) == rest;
      }
    }
  }

  /** No card of a tail slice sits at a position used before the tail was taken. */
  lemma TailRoundsAvoid(tail: seq<Card>, used: set<int>, b: seq<Round>)
    requires forall c :: c in tail ==> c.pos !in used
    requires forall k :: 0 <= k < |b| ==> DeckSlice(tail, b[k].cards)
    ensures RoundPositions(b) !! used
  {
    forall p | p in RoundPositions(b)
      ensures p !in used
    {
      var k, c :| 0 <= k < |b| && c in b[k].cards && c.pos == p;
      var i: nat, j: nat :| i <= j <= |tail| && b[k].cards == tail[i..j];
      assert c in tail;
    }
  }

  lemma RoundPositionsConcat(xs: seq<Round>, ys: seq<Round>)
    ensures RoundPositions(xs + ys) == RoundPositions(xs) + RoundPositions(ys)
  {
    var zs := xs + ys;
    forall p | p in RoundPositions(zs)
      ensures p in RoundPositions(xs) + RoundPositions(ys)
    {
      var k, x :| 0 <= k < |zs| && x in zs[k].cards && x.pos == p;
      if k < |xs| {
        assert zs[k] == xs[k];
      } else {
        assert zs[k] == ys[k - |xs|];
      }
    }
    forall p | p in RoundPositions(xs) + RoundPositions(ys)
      ensures p in RoundPositions(zs)
    {
      if p in RoundPositions(xs) {
        var k, x :| 0 <= k < |xs| && x in xs[k].cards && x.pos == p;
        assert zs[k] == xs[k];
      } else {
        var k, x :| 0 <= k < |ys| && x in ys[k].cards && x.pos == p;
        assert zs[|xs| + k] == ys[k];
      }
    }
  }

  /** The residue shares no position with the rounds, or with what was used before the tail was taken. */
  lemma ResidueApart(tail: seq<Card>, used: set<int>, b: seq<Round>, c: seq<Card>)
    requires forall x :: x in tail ==> x.pos !in used
    requires c == Unused(tail, RoundPositions(b))
    ensures RoundPositions(ResidueRounds(c)) !! used + RoundPositions(b)
  {
    var rc := ResidueRounds(c);
    forall p | p in RoundPositions(rc)
      ensures p !in used + RoundPositions(b)
    {
      var k, x :| 0 <= k < |rc| && x in rc[k].cards && x.pos == p;
      assert rc[k].cards == c;
      assert x in tail;
    }
  }

  /**
    * On a deck without repeated positions the chained segments are disjoint
    * and hold exactly the cards of the deck.
    */
  lemma SegmentsPartition(deck: seq<Card>, a: seq<Round>, used: set<int>, b: seq<Round>, c: seq<Card>)
    requires DistinctPositions(deck) && Ledger(deck, a, used)
    requires forall k :: 0 <= k < |b| ==> DeckSlice(Unused(deck, used), b[k].cards)
    requires c == Unused(Unused(deck, used), RoundPositions(b))
    requires DistinctPositions(Unused(deck, used)) ==> PairwiseDisjoint(b)
    requires DistinctPositions(Unused(deck, used)) ==> multiset(Flatten(b)) + multiset(c) == multiset(Unused(deck, used))
    ensures PairwiseDisjoint(a + b + ResidueRounds(c))
    ensures multiset(Flatten(a + b + ResidueRounds(c))) == multiset(deck)
  {
    var tail := Unused(deck, used);
    UnusedDistinct(deck, used);
    FlattenConcat(a, b);
    FlattenConcat(a + b, ResidueRounds(c));
    TailRoundsAvoid(tail, used, b);
    ConcatDisjoint(a, b);
    RoundPositionsConcat(a, b);
    ResidueApart(tail, used, b, c);
    ConcatDisjoint(a + b, ResidueRounds(c));
  }

  /** The natural rounds left out stay left out once more rounds are kept. */
  lemma OverlapsGrow(r: Round, used: set<int>, more: set<int>)
    requires Overlaps(r, used) && used <= more
    ensures Overlaps(r, more)
  {
  }

  /**
    * `pack_all_sensitive_and_segment` (script.js, red-zero-signal-test.js).
    * Segment A holds natural rounds and reshuffled rounds, sorted by start
    * index; a natural sensitive round is missing from it only if it shares a
    * position with a kept round; reinforcement stopped because fewer than
    * `minCards` cards were left or after 200 failed reshuffles. Segment B is
    * the greedy split of the remaining cards and C what is left of them. On
    * a deck without repeated positions the chained rounds are disjoint and
    * hold exactly the deck.
    */
  method PackAndSegment(deck: seq<Card>, pv: PackVariant, rng: nat -> (nat -> nat))
    returns (s: Segmented, failures: nat)
    requires ValidDraws(rng)
    ensures forall x :: x in s.a ==> ARound(deck, pv.multiPass, x)
    ensures SortedByStart(s.a)
    ensures forall i: nat :: Sensitive(pv.multiPass.sim, Points(deck), i)
                         ==> ToSegmentA(RoundAt(pv.multiPass.sim, deck, i, false).value) in s.a
                             || Overlaps(RoundAt(pv.multiPass.sim, deck, i, false).value, RoundPositions(s.a))
    ensures |Unused(deck, RoundPositions(s.a))| < pv.minCards || failures == MAX_MULTI_PASS_ATTEMPTS
    ensures s.b == GreedyB(pv.multiPass.sim, Unused(deck, RoundPositions(s.a)), 0, pv.bFirstCardStart)
    ensures forall k :: 0 <= k < |s.b| ==> BRound(pv.multiPass.sim, s.b[k], pv.bFirstCardStart)
    ensures s.c == Unused(Unused(deck, RoundPositions(s.a)), RoundPositions(s.b))
    ensures s.rounds == s.a + s.b + ResidueRounds(s.c)
    ensures s.cards == Flatten(s.rounds)
    ensures DistinctPositions(deck) ==> PairwiseDisjoint(s.rounds) && multiset(s.cards) == multiset(deck)
  {
    var sim := pv.multiPass.sim;
    var scanned := ScanAllSensitiveRounds(sim, deck);
    forall k | 0 <= k < |scanned|
      ensures DeckSlice(deck, scanned[k].cards)
    {
      ScannedRoundSlice(sim, deck, scanned[k]);
    }
    var natural, used0 := KeepDisjointScans(deck, scanned);
    MarkALedger(deck, natural, used0);
    NaturalMarked(deck, pv.multiPass, scanned, natural);
    var added, used;
    added, used, failures := JsReinforce(deck, MarkA(natural), used0, pv, rng);
    var a := SortByStart(MarkA(natural) + added);
    SegmentAFacts(deck, pv.multiPass, MarkA(natural), added);
    SortedLedger(deck, MarkA(natural) + added, used);
    NaturalKept(sim, deck, scanned, natural, used0, added, used);
    var tail := Unused(deck, used);
    var b, c := BuildBAndCSegments(sim, tail, pv.bFirstCardStart);
    var rounds := a + b + ResidueRounds(c);
    s := Segmented(a, b, c, rounds, Flatten(rounds));
    if DistinctPositions(deck) {
      SegmentsPartition(deck, a, used, b, c);
    }
  }

  lemma NaturalKept(sim: Simulator, deck: seq<Card>, scanned: seq<Round>, natural: seq<Round>, used0: set<int>,
                    added: seq<Round>, used: set<int>)
    requires forall i: nat :: Sensitive(sim, Points(deck), i) ==> RoundAt(sim, deck, i, false).value in scanned
    requires forall k :: 0 <= k < |scanned| ==> scanned[k] in natural || Overlaps(scanned[k], used0)
    requires Ledger(deck, MarkA(natural), used0)
    requires Ledger(deck, SortByStart(MarkA(natural) + added), used)
    requires Ledger(deck, MarkA(natural) + added, used)
    ensures forall i: nat :: Sensitive(sim, Points(deck), i)
                         ==> ToSegmentA(RoundAt(sim, deck, i, false).value) in SortByStart(MarkA(natural) + added)
                             || Overlaps(RoundAt(sim, deck, i, false).value, used)
  {
    var marked := MarkA(natural);
    var all := marked + added;
    SortByStartBag(all);
    RoundPositionsConcat(marked, added);
    assert all[..|marked|] == marked;
    MarkedIn(natural, all);
    KeptOrOverlapping(sim, deck, scanned, natural, used0, all, SortByStart(all), used);
  }

  /** Every naturally found round is, marked A, among the rounds that start with the marked ones. */
  lemma MarkedIn(natural: seq<Round>, all: seq<Round>)
    requires |MarkA(natural)| <= |all| && all[..|natural|] == MarkA(natural)
    ensures forall r :: r in natural ==> ToSegmentA(r) in all
  {
    forall r | r in natural
      ensures ToSegmentA(r) in all
    {
      var j :| 0 <= j < |natural| && natural[j] == r;
      assert all[..|natural|][j] == ToSegmentA(r);
    }
  }

  lemma KeptOrOverlapping(sim: Simulator, deck: seq<Card>, scanned: seq<Round>, natural: seq<Round>, used0: set<int>,
                          all: seq<Round>, sorted: seq<Round>, used: set<int>)
    requires forall i: nat :: Sensitive(sim, Points(deck), i) ==> RoundAt(sim, deck, i, false).value in scanned
    requires forall k :: 0 <= k < |scanned| ==> scanned[k] in natural || Overlaps(scanned[k], used0)
    requires forall r :: r in natural ==> ToSegmentA(r) in all
    requires multiset(sorted) == multiset(all) && used0 <= used
    ensures forall i: nat :: Sensitive(sim, Points(deck), i)
                         ==> ToSegmentA(RoundAt(sim, deck, i, false).value) in sorted
                             || Overlaps(RoundAt(sim, deck, i, false).value, used)
  {
    forall i: nat | Sensitive(sim, Points(deck), i)
      ensures ToSegmentA(RoundAt(sim, deck, i, false).value) in sorted
              || Overlaps(RoundAt(sim, deck, i, false).value, used)
    {
      var r := RoundAt(sim, deck, i, false).value;
      var k :| 0 <= k < |scanned| && scanned[k] == r;
      if r in natural {
        assert ToSegmentA(r) in multiset(all);
      } else {
        OverlapsGrow(r, used0, used);
      }
    }
  }
}

// `runAutoColorSwap_Signal` of signals.js: the colour pass over a whole
// shoe. T rounds (two-pair rounds) are locked, then brought to a pattern
// one by one with exact-rank exchanges only; then every other round is
// tried in order, and a round that reaches a pattern is semi-locked (its
// first four cards are no longer offered to later rounds).

module ColourRun {
  import opened Base
  import opened Cards
  import opened RoundSlots
  import opened JsRules
  import opened JsSegments
  import opened SignalCards
  import opened ColourSwap

  lemma PointsKeptTrans(a: seq<Round>, b: seq<Round>, c: seq<Round>)
    requires PointsKept(a, b) && PointsKept(b, c)
    ensures PointsKept(a, c)
  {
    SameShapeTrans(a, b, c);
    SameShapePlaces(a, b);
  }

  lemma SignalsKeptTrans(cfg: SignalConfig, a: seq<Round>, b: seq<Round>, c: seq<Round>, sRounds: set<nat>)
    requires SignalsKept(cfg, a, b, sRounds) && SignalsKept(cfg, b, c, sRounds)
    ensures SignalsKept(cfg, a, c, sRounds)
  {
  }

  /** Two card sequences with the same ranks, position by position. */
  predicate SameRanks(a: seq<Card>, b: seq<Card>)
  {
    |a| == |b| && forall i :: 0 <= i < |a| ==> a[i].rank == b[i].rank
  }

  lemma {:induction false} SameRanksCount(a: seq<Card>, b: seq<Card>, r: Rank)
    requires SameRanks(a, b)
    ensures RankCount(a, r) == RankCount(b, r)
  {
    if |a| > 0 {
      SameRanksCount(a[1..], b[1..], r);
    }
  }

  lemma {:induction false} SameRanksPaired(a: seq<Card>, b: seq<Card>, rs: seq<Rank>)
    requires SameRanks(a, b)
    ensures PairedRanks(a, rs) == PairedRanks(b, rs)
  {
    if |rs| > 0 {
      SameRanksCount(a, b, rs[0]);
      SameRanksPaired(a, b, rs[1..]);
    }
  }

  /** Exchanges that keep every rank keep a two-pair round a two-pair round. */
  lemma SameRanksTwoPairs(a: seq<Card>, b: seq<Card>)
    requires SameRanks(a, b)
    ensures HasTwoPairs(a) <==> HasTwoPairs(b)
  {
    SameRanksPaired(a, b, RANKS);
  }

  /** A fully locked round other than the one being solved does not change. */
  lemma LockedUnchanged(a: seq<Round>, b: seq<Round>, ridx: nat, lockedFull: set<nat>, semi: set<nat>, k: nat)
    requires Confined(a, b, ridx, lockedFull, semi) && k < |a| && k != ridx && k in lockedFull
    ensures b[k] == a[k]
  {
    assert a[k].(cards := b[k].cards) == b[k];
    forall c | 0 <= c < |a[k].cards|
      ensures b[k].cards[c] == a[k].cards[c]
    {
      assert IsPlace(a, Place(k, c)) && !Offerable(ridx, lockedFull, semi, Place(k, c));
    }
    assert b[k].cards == a[k].cards;
  }

  /** A settled round that is locked or semi-locked, and not the one being solved, stays settled. */
  lemma SettledKept(a: seq<Round>, b: seq<Round>, ridx: nat, lockedFull: set<nat>, semi: set<nat>, k: nat)
    requires Confined(a, b, ridx, lockedFull, semi) && k < |a| && k != ridx && (k in lockedFull || k in semi)
    requires Settled(a[k].cards)
    ensures Settled(b[k].cards)
  {
    var cs, ds := a[k].cards, b[k].cards;
    assert |ds| == |cs|;
    forall c | 0 <= c < Head(cs)
      ensures ds[c] == cs[c]
    {
      assert IsPlace(a, Place(k, c)) && !Offerable(ridx, lockedFull, semi, Place(k, c));
    }
  }

  /**
    * `processRound`: nothing for a segment-B round, nor (unless forced) for a
    * locked or semi-locked one; otherwise `solvePattern` with the better
    * scoring pattern, and with the other one when that fails. Forced runs
    * exchange exact ranks only.
    */
  method ProcessRound(cfg: SignalConfig, rs: seq<Round>, ridx: nat, lockedFull: set<nat>, semi: set<nat>,
                      force: bool, sRounds: set<nat>) returns (out: seq<Round>, ok: bool)
    ensures PointsKept(rs, out) && (force ==> RanksKept(rs, out))
    ensures multiset(Flatten(out)) == multiset(Flatten(rs))
    ensures SignalsKept(cfg, rs, out, sRounds)
    ensures ok ==> ridx < |rs| && rs[ridx].segment != SegB && Settled(out[ridx].cards)
    ensures ridx >= |rs| || rs[ridx].segment == SegB || (!force && (ridx in lockedFull || ridx in semi)) ==>
              out == rs && !ok
    ensures forall k :: 0 <= k < |rs| && k != ridx && k in lockedFull ==> out[k] == rs[k]
    ensures forall k :: 0 <= k < |rs| && k != ridx && (k in lockedFull || k in semi) && Settled(rs[k].cards)
              ==> Settled(out[k].cards)
  {
    if ridx >= |rs| || rs[ridx].segment == SegB || (!force && (ridx in lockedFull || ridx in semi)) {
      SameShapeTrans(rs, rs, rs);
      return rs, false;
    }
    var s1 := ScoreRound(rs[ridx].cards, PAT1);
    var s2 := ScoreRound(rs[ridx].cards, PAT2);
    var first := FirstPattern(s1, s2);
    var second := if first == PAT1 then PAT2 else PAT1;
    var mid;
    mid, ok := SolvePattern(cfg, rs, ridx, first, lockedFull, semi, force, sRounds);
    assert RoundKept(cfg, rs, mid, ridx, lockedFull, semi, force, sRounds) by {
      SolvedKept(cfg, rs, mid, ridx, lockedFull, semi, force, sRounds);
    }
    if ok {
      return mid, true;
    }
    out, ok := SolvePattern(cfg, mid, ridx, second, lockedFull, semi, force, sRounds);
    assert RoundKept(cfg, rs, out, ridx, lockedFull, semi, force, sRounds) by {
      SolvedKept(cfg, mid, out, ridx, lockedFull, semi, force, sRounds);
      RoundKeptTrans(cfg, rs, mid, out, ridx, lockedFull, semi, force, sRounds);
    }
  }

  /** What `processRound` keeps of the rounds, whichever of its branches runs. */
  ghost predicate RoundKept(cfg: SignalConfig, rs: seq<Round>, out: seq<Round>, ridx: nat, lockedFull: set<nat>,
                            semi: set<nat>, force: bool, sRounds: set<nat>)
  {
    && PointsKept(rs, out) && (force ==> RanksKept(rs, out))
    && multiset(Flatten(out)) == multiset(Flatten(rs))
    && SignalsKept(cfg, rs, out, sRounds)
    && (forall k :: 0 <= k < |rs| && k != ridx && k in lockedFull ==> out[k] == rs[k])
    && (forall k :: 0 <= k < |rs| && k != ridx && (k in lockedFull || k in semi) && Settled(rs[k].cards)
          ==> Settled(out[k].cards))
  }

  /** One `solvePattern` run keeps what `processRound` promises. */
  lemma SolvedKept(cfg: SignalConfig, rs: seq<Round>, out: seq<Round>, ridx: nat, lockedFull: set<nat>,
                   semi: set<nat>, force: bool, sRounds: set<nat>)
    requires PointsKept(rs, out) && (force ==> RanksKept(rs, out))
    requires multiset(Flatten(out)) == multiset(Flatten(rs))
    requires SignalsKept(cfg, rs, out, sRounds)
    requires Confined(rs, out, ridx, lockedFull, semi)
    ensures RoundKept(cfg, rs, out, ridx, lockedFull, semi, force, sRounds)
  {
    forall k | 0 <= k < |rs| && k != ridx && k in lockedFull
      ensures out[k] == rs[k]
    {
      LockedUnchanged(rs, out, ridx, lockedFull, semi, k);
    }
    forall k | 0 <= k < |rs| && k != ridx && (k in lockedFull || k in semi) && Settled(rs[k].cards)
      ensures Settled(out[k].cards)
    {
      SettledKept(rs, out, ridx, lockedFull, semi, k);
    }
  }

  lemma RoundKeptTrans(cfg: SignalConfig, a: seq<Round>, b: seq<Round>, c: seq<Round>, ridx: nat,
                       lockedFull: set<nat>, semi: set<nat>, force: bool, sRounds: set<nat>)
    requires RoundKept(cfg, a, b, ridx, lockedFull, semi, force, sRounds)
    requires RoundKept(cfg, b, c, ridx, lockedFull, semi, force, sRounds)
    ensures RoundKept(cfg, a, c, ridx, lockedFull, semi, force, sRounds)
  {
    PointsKeptTrans(a, b, c);
    SignalsKeptTrans(cfg, a, b, c, sRounds);
    if force {
      SameShapeTrans(a, b, c);
      SameShapePlaces(a, b);
    }
    assert |a| == |b|;
  }

  /** The signal rounds of the pass: `compute_sidx_for_segment(rounds, 'A')`, wrapping to the last round. */
  function SRounds(rs: seq<Round>): (s: set<nat>)
    ensures forall i: nat :: i in s <==> BeforeBanker(rs, SegA, i) || (i == |rs| - 1 && WrapsToFirst(rs, SegA))
  {
    var ix := CyclicSIdxForSegment(rs, SegA);
    set i | i in ix
  }

  /** The T rounds, which stay fully locked while other rounds are solved. */
  function TRounds(rs: seq<Round>): (t: set<nat>)
    ensures forall k: nat :: k in t <==> k < |rs| && rs[k].isT
  {
    set k: nat | k < |rs| && rs[k].isT
  }

  /** What holds throughout the pass. */
  ghost predicate RunInv(cfg: SignalConfig, rs: seq<Round>, out: seq<Round>, settled: set<nat>)
  {
    PointsKept(rs, out) && multiset(Flatten(out)) == multiset(Flatten(rs))
    && SignalsKept(cfg, rs, out, SRounds(rs))
    && (forall k :: 0 <= k < |rs| && rs[k].isT ==> SameRanks(out[k].cards, rs[k].cards))
    && (forall k :: k in settled ==> k < |rs| && rs[k].segment != SegB && Settled(out[k].cards))
  }

  lemma RunStep(cfg: SignalConfig, rs: seq<Round>, out: seq<Round>, out': seq<Round>, settled: set<nat>)
    requires RunInv(cfg, rs, out, settled)
    requires PointsKept(out, out') && multiset(Flatten(out')) == multiset(Flatten(out))
    requires SignalsKept(cfg, out, out', SRounds(rs))
    requires forall k :: 0 <= k < |rs| && rs[k].isT ==> SameRanks(out'[k].cards, out[k].cards)
    requires forall k :: k in settled ==> Settled(out'[k].cards)
    ensures RunInv(cfg, rs, out', settled)
  {
    PointsKeptTrans(rs, out, out');
    SignalsKeptTrans(cfg, rs, out, out', SRounds(rs));
  }

  lemma RanksKeptRounds(a: seq<Round>, b: seq<Round>)
    requires RanksKept(a, b)
    ensures forall k :: 0 <= k < |a| ==> SameRanks(b[k].cards, a[k].cards)
  {
    forall k, c | 0 <= k < |a| && 0 <= c < |a[k].cards|
      ensures b[k].cards[c].rank == a[k].cards[c].rank
    {
      assert IsPlace(a, Place(k, c)) && IsPlace(b, Place(k, c));
    }
  }

  /** Step 2 of the pass: each T round, unlocked while it is solved, exact ranks only. */
  method SolveTRounds(cfg: SignalConfig, rs: seq<Round>) returns (out: seq<Round>, ghost settled: set<nat>)
    ensures PointsKept(rs, out) && SignalsKept(cfg, rs, out, SRounds(rs))
    ensures RunInv(cfg, rs, out, settled)
    ensures forall k :: k in settled ==> k in TRounds(rs)
  {
    var lockedFull := TRounds(rs);
    var sRounds := SRounds(rs);
    out := rs;
    settled := {};
    SameShapeTrans(rs, rs, rs);
    for idx := 0 to |rs|
      invariant RunInv(cfg, rs, out, settled)
      invariant forall k :: k in settled ==> k < idx && rs[k].isT
    {
      out, settled := SolveTRound(cfg, rs, out, idx, lockedFull, sRounds, settled);
    }
  }

  /** Step 2 for round `idx`: a T round is solved with the other T rounds locked. */
  method SolveTRound(cfg: SignalConfig, ghost rs: seq<Round>, out: seq<Round>, idx: nat, lockedFull: set<nat>,
                     sRounds: set<nat>, ghost settled: set<nat>)
    returns (out': seq<Round>, ghost settled': set<nat>)
    requires idx < |rs| && lockedFull == TRounds(rs) && sRounds == SRounds(rs)
    requires RunInv(cfg, rs, out, settled) && forall k :: k in settled ==> k < idx && rs[k].isT
    ensures PointsKept(rs, out') && SignalsKept(cfg, rs, out', SRounds(rs))
    ensures RunInv(cfg, rs, out', settled')
    ensures forall k :: k in settled' ==> k < idx + 1 && rs[k].isT
  {
    assert |out| == |rs|;
    if !out[idx].isT {
      return out, settled;
    }
    var ok;
    out', ok := ProcessRound(cfg, out, idx, lockedFull - {idx}, {}, true, sRounds);
    RanksKeptRounds(out, out');
    RunStep(cfg, rs, out, out', settled);
    settled' := if ok then settled + {idx} else settled;
  }

  /** Step 3 of the pass: every round in order, T rounds locked, solved rounds semi-locked after. */
  method SolveOtherRounds(cfg: SignalConfig, rs: seq<Round>, mid: seq<Round>, ghost settled0: set<nat>)
    returns (out: seq<Round>, ghost settled: set<nat>)
    requires RunInv(cfg, rs, mid, settled0)
    requires forall k :: k in settled0 ==> k in TRounds(rs)
    ensures PointsKept(rs, out) && SignalsKept(cfg, rs, out, SRounds(rs))
    ensures RunInv(cfg, rs, out, settled)
  {
    var lockedFull := TRounds(rs);
    var semi: set<nat> := {};
    var sRounds := SRounds(rs);
    out := mid;
    settled := settled0;
    for ridx := 0 to |rs|
      invariant OtherInv(cfg, rs, out, settled, lockedFull, semi)
    {
      out, semi, settled := SolveOtherRound(cfg, rs, out, ridx, lockedFull, semi, sRounds, settled);
    }
  }

  /** What holds throughout step 3: the pass invariant, and every settled round is locked or semi-locked. */
  ghost predicate OtherInv(cfg: SignalConfig, rs: seq<Round>, out: seq<Round>, settled: set<nat>,
                           lockedFull: set<nat>, semi: set<nat>)
  {
    RunInv(cfg, rs, out, settled) && forall k :: k in settled ==> k in lockedFull || k in semi
  }

  /** One round of step 3; a round it settles becomes semi-locked. */
  method SolveOtherRound(cfg: SignalConfig, rs: seq<Round>, out: seq<Round>, ridx: nat, lockedFull: set<nat>,
                         semi: set<nat>, sRounds: set<nat>, ghost settled: set<nat>)
    returns (out': seq<Round>, semi': set<nat>, ghost settled': set<nat>)
    requires OtherInv(cfg, rs, out, settled, lockedFull, semi)
    requires lockedFull == TRounds(rs) && sRounds == SRounds(rs)
    ensures PointsKept(rs, out') && SignalsKept(cfg, rs, out', SRounds(rs))
    ensures OtherInv(cfg, rs, out', settled', lockedFull, semi')
  {
    var ok;
    out', ok := ProcessRound(cfg, out, ridx, lockedFull, semi, false, sRounds);
    assert RunInv(cfg, rs, out', settled) by {
      RunStep(cfg, rs, out, out', settled);
    }
    semi', settled' := semi, settled;
    if ok {
      RunInvSettle(cfg, rs, out', settled, ridx);
      semi', settled' := semi + {ridx}, settled + {ridx};
    }
  }

  lemma RunInvSettle(cfg: SignalConfig, rs: seq<Round>, out: seq<Round>, settled: set<nat>, ridx: nat)
    requires RunInv(cfg, rs, out, settled)
    requires ridx < |rs| && rs[ridx].segment != SegB && Settled(out[ridx].cards)
    ensures RunInv(cfg, rs, out, settled + {ridx})
  {
  }

  /**
    * `runAutoColorSwap_Signal`. The pass keeps every place's point value
    * (so every round's result) and the deck's cards; the T rounds keep
    * their ranks, hence their two pairs; outside the signal rounds the
    * number of signal cards per round is unchanged, and a signal round
    * holding a signal card still holds one. `settled` names the rounds the
    * pass brought to a pattern: none is in segment B, and each still
    * follows BBBR or RRRB at the end.
    */
  method RunAutoColorSwapSignal(cfg: SignalConfig, rs: seq<Round>) returns (out: seq<Round>, ghost settled: set<nat>)
    ensures PointsKept(rs, out) && multiset(Flatten(out)) == multiset(Flatten(rs))
    ensures SignalsKept(cfg, rs, out, SRounds(rs))
    ensures forall k :: 0 <= k < |rs| && rs[k].isT ==>
              SameRanks(out[k].cards, rs[k].cards) && (HasTwoPairs(out[k].cards) <==> HasTwoPairs(rs[k].cards))
    ensures forall k :: k in settled ==> k < |out| && rs[k].segment != SegB && Settled(out[k].cards)
  {
    var mid, settledT := SolveTRounds(cfg, rs);
    out, settled := SolveOtherRounds(cfg, rs, mid, settledT);
    forall k | 0 <= k < |rs| && rs[k].isT
      ensures HasTwoPairs(out[k].cards) <==> HasTwoPairs(rs[k].cards)
    {
      SameRanksTwoPairs(out[k].cards, rs[k].cards);
    }
  }
}

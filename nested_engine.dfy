// The differently structured Simulator of signals.js, repeated verbatim in
// red-zero-signal-test.js: natural on a total of 8 or more, Player's draw
// nested around Banker's tableau, and a `draw` step that only advances the
// running index. As written, Banker's third card is consumed but never added
// to Banker's total; `SimulateRoundAsWritten` models that and is proved to
// deal as `Engine.Deal` under `SignalsSimulator`. `SimulateRoundNested` is
// the same code with the total updated, proved to agree with go/waa.py on
// every deck.

module NestedEngine {
  import opened Base
  import opened Cards
  import opened Engine

  /** signals.js `simulate_round` exactly as written. */
  method SimulateRoundAsWritten(d: seq<Card>, start: nat, noSwap: bool) returns (r: Option<Round>)
    ensures r == RoundAt(SignalsSimulator, d, start, noSwap)
    decreases if noSwap then 0 else 2
  {
    var hand := DealStepsAsWritten(d, start);
    if hand.None? {
      return None;
    }
    var res := OutcomeOf(hand.value.player, hand.value.banker);
    var used := d[start..start + hand.value.len];
    if noSwap {
      return Some(Plain(At(start), used, Won(res), false));
    }
    var swapRes, sameLen := SwapResultAsWritten(d, start);
    var invalidSwap := res == Tie && swapRes == Some(Banker);
    var sensitive := swapRes.Some? && swapRes.value != res && swapRes.value != Tie
                     && sameLen == |used| && !invalidSwap;
    return Some(Plain(At(start), used, Won(res), sensitive));
  }

  /** The drawing part of signals.js `simulate_round`, as written. */
  method DealStepsAsWritten(d: seq<Card>, start: nat) returns (hand: Option<Hand>)
    ensures hand == Deal(SignalsSimulator, Points(d), start)
  {
    var idx := start;
    if idx + 3 >= |d| {
      return None;
    }
    var p1 := CardPoint(d[idx]);
    var b1 := CardPoint(d[idx + 1]);
    var p2 := CardPoint(d[idx + 2]);
    var b2 := CardPoint(d[idx + 3]);
    idx := idx + 4;
    var pTot := (p1 + p2) % 10;
    var bTot := (b1 + b2) % 10;
    var natural := pTot >= 8 || bTot >= 8;
    if !natural {
      if pTot <= 5 {
        if idx >= |d| {
          return None;
        }
        idx := idx + 1;
        var pt := CardPoint(d[idx - 1]);
        pTot := (pTot + pt) % 10;
        var draws := false;
        if bTot <= 2 {
          draws := true;
        } else if bTot == 3 && pt != 8 {
          draws := true;
        } else if bTot == 4 && 2 <= pt <= 7 {
          draws := true;
        } else if bTot == 5 && 4 <= pt <= 7 {
          draws := true;
        } else if bTot == 6 && 6 <= pt <= 7 {
          draws := true;
        }
        if draws {
          if idx >= |d| {
            return None;
          }
          idx := idx + 1;
        }
      } else if bTot <= 5 {
        if idx >= |d| {
          return None;
        }
        idx := idx + 1;
      }
    }
    hand := Some(Hand(idx - start, pTot, bTot));
  }

  method SwapResultAsWritten(d: seq<Card>, start: nat) returns (res: Option<Outcome>, len: nat)
    ensures SwapReplay(SignalsSimulator, Points(d), start).None? ==> res == None && len == 0
    ensures SwapReplay(SignalsSimulator, Points(d), start).Some? ==>
              res == Some(HandOutcome(SwapReplay(SignalsSimulator, Points(d), start).value))
              && len == SwapReplay(SignalsSimulator, Points(d), start).value.len
    decreases 1
  {
    if start + 1 >= |d| {
      return None, 0;
    }
    var d2 := d[start := d[start + 1]][start + 1 := d[start]];
    PointsOfSwap(d, start);
    var r2 := SimulateRoundAsWritten(d2, start, true);
    if r2.None? {
      return None, 0;
    }
    return Some(r2.value.result.outcome), |r2.value.cards|;
  }

  /**
    * The as-written engine consumes the same cards as the go/waa.py engine and
    * agrees on Player's total; Banker's total is the two-card total whenever
    * Banker drew.
    */
  lemma AsWrittenConsumesSameCards(ps: seq<nat>, s: nat)
    ensures Deal(SignalsSimulator, ps, s).Some? <==> Deal(WaaSimulator, ps, s).Some?
    ensures Deal(WaaSimulator, ps, s).Some? ==>
              Deal(SignalsSimulator, ps, s).value.len == Deal(WaaSimulator, ps, s).value.len
              && Deal(SignalsSimulator, ps, s).value.player == Deal(WaaSimulator, ps, s).value.player
              && Deal(SignalsSimulator, ps, s).value.banker == (ps[s + 1] + ps[s + 3]) % 10
  {
  }

  /**
    * The discrepancy: with Banker holding 2 and drawing an 8, go/waa.py scores
    * a tie (0 against 0) where signals.js scores Banker (2 against 0).
    */
  lemma BankerThirdCardIgnored()
    ensures Deal(WaaSimulator, [0, 1, 0, 1, 0, 8], 0) == Some(Hand(6, 0, 0))
    ensures Deal(SignalsSimulator, [0, 1, 0, 1, 0, 8], 0) == Some(Hand(6, 0, 2))
    ensures HandOutcome(Deal(WaaSimulator, [0, 1, 0, 1, 0, 8], 0).value) == Tie
    ensures HandOutcome(Deal(SignalsSimulator, [0, 1, 0, 1, 0, 8], 0).value) == Banker
  {
  }

  /**
    * signals.js `simulate_round` with Banker's third card added to its total:
    * on every deck it deals the same cards, the same result and the same
    * sensitivity flag as the go/waa.py engine.
    */
  method SimulateRoundNested(d: seq<Card>, start: nat, noSwap: bool) returns (r: Option<Round>)
    ensures r == RoundAt(WaaSimulator, d, start, noSwap)
    decreases if noSwap then 0 else 2
  {
    var hand := DealStepsNested(d, start);
    if hand.None? {
      return None;
    }
    var res := OutcomeOf(hand.value.player, hand.value.banker);
    var used := d[start..start + hand.value.len];
    if noSwap {
      return Some(Plain(At(start), used, Won(res), false));
    }
    var swapRes, sameLen := SwapResultNested(d, start);
    var invalidSwap := res == Tie && swapRes == Some(Banker);
    var sensitive := swapRes.Some? && swapRes.value != res && swapRes.value != Tie
                     && sameLen == |used| && !invalidSwap;
    return Some(Plain(At(start), used, Won(res), sensitive));
  }

  /** The drawing part of the corrected `simulate_round`. */
  method DealStepsNested(d: seq<Card>, start: nat) returns (hand: Option<Hand>)
    ensures hand == Deal(WaaSimulator, Points(d), start)
  {
    var idx := start;
    if idx + 3 >= |d| {
      return None;
    }
    var p1 := CardPoint(d[idx]);
    var b1 := CardPoint(d[idx + 1]);
    var p2 := CardPoint(d[idx + 2]);
    var b2 := CardPoint(d[idx + 3]);
    idx := idx + 4;
    var pTot := (p1 + p2) % 10;
    var bTot := (b1 + b2) % 10;
    var natural := pTot >= 8 || bTot >= 8;
    if !natural {
      if pTot <= 5 {
        if idx >= |d| {
          return None;
        }
        idx := idx + 1;
        var pt := CardPoint(d[idx - 1]);
        pTot := (pTot + pt) % 10;
        var draws := false;
        if bTot <= 2 {
          draws := true;
        } else if bTot == 3 && pt != 8 {
          draws := true;
        } else if bTot == 4 && 2 <= pt <= 7 {
          draws := true;
        } else if bTot == 5 && 4 <= pt <= 7 {
          draws := true;
        } else if bTot == 6 && 6 <= pt <= 7 {
          draws := true;
        }
        if draws {
          if idx >= |d| {
            return None;
          }
          idx := idx + 1;
          bTot := (bTot + CardPoint(d[idx - 1])) % 10;
        }
      } else if bTot <= 5 {
        if idx >= |d| {
          return None;
        }
        idx := idx + 1;
        bTot := (bTot + CardPoint(d[idx - 1])) % 10;
      }
    }
    hand := Some(Hand(idx - start, pTot, bTot));
  }

  method SwapResultNested(d: seq<Card>, start: nat) returns (res: Option<Outcome>, len: nat)
    ensures SwapReplay(WaaSimulator, Points(d), start).None? ==> res == None && len == 0
    ensures SwapReplay(WaaSimulator, Points(d), start).Some? ==>
              res == Some(HandOutcome(SwapReplay(WaaSimulator, Points(d), start).value))
              && len == SwapReplay(WaaSimulator, Points(d), start).value.len
    decreases 1
  {
    if start + 1 >= |d| {
      return None, 0;
    }
    var d2 := d[start := d[start + 1]][start + 1 := d[start]];
    PointsOfSwap(d, start);
    var r2 := SimulateRoundNested(d2, start, true);
    if r2.None? {
      return None, 0;
    }
    return Some(r2.value.result.outcome), |r2.value.cards|;
  }

  /**
    * `new Simulator(d).simulate_round(start, …)` with the Simulator of the
    * calling file: go/waa.py's (and script.js's) or signals.js's as written.
    */
  method SimulateWith(sim: Simulator, d: seq<Card>, start: nat, noSwap: bool) returns (r: Option<Round>)
    ensures r == RoundAt(sim, d, start, noSwap)
  {
    if sim == WaaSimulator {
      r := SimulateRound(d, start, noSwap);
    } else {
      r := SimulateRoundAsWritten(d, start, noSwap);
    }
  }
}

// The punto banco round engine and the sensitivity oracle: the go/waa.py
// Simulator (copied unchanged into script.js) and the nested Simulator of
// signals.js (copied into red-zero-signal-test.js, and the one signals_ui.js
// deals with), which consumes Banker's third card without adding it.

module Engine {
  import opened Base
  import opened Cards

  /** A dealt round: how many cards it consumed and the two final totals. */
  datatype Hand = Hand(len: nat, player: nat, banker: nat)

  /**
    * Which Simulator deals: `WaaSimulator` is go/waa.py's and script.js's;
    * `SignalsSimulator` is signals.js's, as written, which leaves Banker's
    * total at its two-card value when Banker draws.
    */
  datatype Simulator = WaaSimulator | SignalsSimulator

  function HandOutcome(h: Hand): Outcome
  {
    OutcomeOf(h.player, h.banker)
  }

  /**
    * The Banker's third-card tableau: whether Banker, holding `b`, draws after
    * Player drew a third card worth `t`.
    */
  predicate BankerDrawsOn(b: nat, t: nat)
  {
    b <= 2
    || (b == 3 && t != 8)
    || (b == 4 && 2 <= t <= 7)
    || (b == 5 && 4 <= t <= 7)
    || (b == 6 && 6 <= t <= 7)
  }

  /**
    * The round dealt at `start` from a run of card points: Player gets offsets
    * 0 and 2, Banker 1 and 3, totals are taken modulo 10, a natural (8 or 9 on
    * either side) ends the round, otherwise Player draws on 0..5 and Banker
    * follows the tableau (or, when Player stood, draws on 0..5). `None` when
    * the run ends before the round is complete. Under `SignalsSimulator`
    * Banker's drawn card is consumed but not added. The engine is stated
    * over points because they are all it ever reads of a card.
    */
  function Deal(sim: Simulator, ps: seq<nat>, start: nat): (r: Option<Hand>)
    ensures r.Some? ==> 4 <= r.value.len <= 6 && start + r.value.len <= |ps|
    ensures r.Some? ==> r.value.player <= 9 && r.value.banker <= 9
  {
    if start + 4 > |ps| then None
    else
      var p := (ps[start] + ps[start + 2]) % 10;
      var b := (ps[start + 1] + ps[start + 3]) % 10;
      if p >= 8 || b >= 8 then Some(Hand(4, p, b))
      else if p <= 5 then
        if start + 4 >= |ps| then None
        else
          var t := ps[start + 4];
          if !BankerDrawsOn(b, t) then Some(Hand(5, (p + t) % 10, b))
          else if start + 5 >= |ps| then None
          else Some(Hand(6, (p + t) % 10, if sim.SignalsSimulator? then b else (b + ps[start + 5]) % 10))
      else if b <= 5 then
        if start + 4 >= |ps| then None
        else Some(Hand(5, p, if sim.SignalsSimulator? then b else (b + ps[start + 4]) % 10))
      else Some(Hand(4, p, b))
  }

  /** `s` with the entries at `i` and `i + 1` exchanged (P1 and B1 when `i` is a round start). */
  function SwapAt<T>(s: seq<T>, i: nat): (e: seq<T>)
    requires i + 1 < |s|
    ensures |e| == |s| && e[i] == s[i + 1] && e[i + 1] == s[i]
    ensures forall k :: 0 <= k < |s| && k != i && k != i + 1 ==> e[k] == s[k]
  {
    s[i := s[i + 1]][i + 1 := s[i]]
  }

  /** The replay of the round at `start` after exchanging its first two cards. */
  function SwapReplay(sim: Simulator, ps: seq<nat>, start: nat): Option<Hand>
  {
    if start + 1 < |ps| then Deal(sim, SwapAt(ps, start), start) else None
  }

  /**
    * The sensitivity rule: the swapped replay exists, has a different outcome,
    * is not a tie, consumes as many cards, and is not the tie-to-Banker flip.
    */
  predicate SensitiveSwap(res: Outcome, len: nat, q: Option<Hand>)
  {
    q.Some?
    && HandOutcome(q.value) != res
    && HandOutcome(q.value) != Tie
    && q.value.len == len
    && !(res == Tie && HandOutcome(q.value) == Banker)
  }

  predicate Sensitive(sim: Simulator, ps: seq<nat>, start: nat)
  {
    match Deal(sim, ps, start)
    case None => false
    case Some(h) => SensitiveSwap(HandOutcome(h), h.len, SwapReplay(sim, ps, start))
  }

  /** The round record the engine returns for `start`; no sensitivity test under `noSwap`. */
  function RoundAt(sim: Simulator, d: seq<Card>, start: nat, noSwap: bool): Option<Round>
  {
    match Deal(sim, Points(d), start)
    case None => None
    case Some(h) =>
      Some(Plain(At(start), d[start..start + h.len], Won(HandOutcome(h)), !noSwap && Sensitive(sim, Points(d), start)))
  }

  /** The engine's record at `i`: the dealt slice, its outcome, and the sensitivity flag. */
  lemma RoundAtFields(sim: Simulator, d: seq<Card>, i: nat)
    requires RoundAt(sim, d, i, false).Some?
    ensures Deal(sim, Points(d), i).Some?
    ensures RoundAt(sim, d, i, false).value
            == Plain(At(i), d[i..i + Deal(sim, Points(d), i).value.len],
                     Won(HandOutcome(Deal(sim, Points(d), i).value)), Sensitive(sim, Points(d), i))
  {
  }

  lemma PointsOfSwap(d: seq<Card>, i: nat)
    requires i + 1 < |d|
    ensures Points(SwapAt(d, i)) == SwapAt(Points(d), i)
  {
  }

  /** go/waa.py `simulate_round`: the step-by-step deal with its running index. */
  method SimulateRound(d: seq<Card>, start: nat, noSwap: bool) returns (r: Option<Round>)
    ensures r == RoundAt(WaaSimulator, d, start, noSwap)
    decreases if noSwap then 0 else 2
  {
    var hand := DealSteps(d, start);
    if hand.None? {
      return None;
    }
    var res := OutcomeOf(hand.value.player, hand.value.banker);
    var used := d[start..start + hand.value.len];
    if noSwap {
      return Some(Plain(At(start), used, Won(res), false));
    }
    var swapRes, sameLen := SwapResult(d, start);
    var invalidSwap := res == Tie && swapRes == Some(Banker);
    var sensitive := swapRes.Some? && swapRes.value != res && swapRes.value != Tie
                     && sameLen == |used| && !invalidSwap;
    return Some(Plain(At(start), used, Won(res), sensitive));
  }

  /** The drawing part of `simulate_round`: the running index and the two totals. */
  method DealSteps(d: seq<Card>, start: nat) returns (hand: Option<Hand>)
    ensures hand == Deal(WaaSimulator, Points(d), start)
  {
    if start + 3 >= |d| {
      return None;
    }
    var idx := start + 4;
    var pTot := (CardPoint(d[start]) + CardPoint(d[start + 2])) % 10;
    var bTot := (CardPoint(d[start + 1]) + CardPoint(d[start + 3])) % 10;
    var natural := pTot == 8 || pTot == 9 || bTot == 8 || bTot == 9;
    if !natural {
      var p3: Option<nat> := None;
      if pTot <= 5 {
        if idx >= |d| {
          return None;
        }
        p3 := Some(CardPoint(d[idx]));
        idx := idx + 1;
        pTot := (pTot + p3.value) % 10;
      }
      if p3.None? {
        if bTot <= 5 {
          if idx >= |d| {
            return None;
          }
          bTot := (bTot + CardPoint(d[idx])) % 10;
          idx := idx + 1;
        }
      } else {
        var pt := p3.value;
        var draws := false;
        if bTot <= 2 {
          draws := true;
        } else if bTot == 3 && pt != 8 {
          draws := true;
        } else if bTot == 4 && 2 <= pt <= 7 {
          draws := true;
        } else if bTot == 5 && 4 <= pt <= 7 {
          draws := true;
        } else if bTot == 6 && 6 <= pt <= 7 {
          draws := true;
        }
        if draws {
          if idx >= |d| {
            return None;
          }
          bTot := (bTot + CardPoint(d[idx])) % 10;
          idx := idx + 1;
        }
      }
    }
    hand := Some(Hand(idx - start, pTot, bTot));
  }

  /**
    * `_swap_result`: outcome and card count of the swapped replay, `(None, 0)`
    * when the replay fails or, as in the JavaScript ports, when `start + 1` is
    * past the end.
    */
  method SwapResult(d: seq<Card>, start: nat) returns (res: Option<Outcome>, len: nat)
    ensures SwapReplay(WaaSimulator, Points(d), start).None? ==> res == None && len == 0
    ensures SwapReplay(WaaSimulator, Points(d), start).Some? ==>
              res == Some(HandOutcome(SwapReplay(WaaSimulator, Points(d), start).value))
              && len == SwapReplay(WaaSimulator, Points(d), start).value.len
    decreases 1
  {
    if start + 1 >= |d| {
      return None, 0;
    }
    var d2 := d[start := d[start + 1]][start + 1 := d[start]];
    PointsOfSwap(d, start);
    var r2 := SimulateRound(d2, start, true);
    if r2.None? {
      return None, 0;
    }
    return Some(r2.value.result.outcome), |r2.value.cards|;
  }

  // ---------------------------------------------------------------------
  // What the engine promises.
  // ---------------------------------------------------------------------

  /** Two point runs agree over `n` entries from `s` and from `t`. */
  predicate SameRun(ps: seq<nat>, s: nat, qs: seq<nat>, t: nat, n: nat)
  {
    s + n <= |ps| && t + n <= |qs| && ps[s..s + n] == qs[t..t + n]
  }

  lemma SameRunAt(ps: seq<nat>, s: nat, qs: seq<nat>, t: nat, n: nat, k: nat)
    requires SameRun(ps, s, qs, t, n) && k < n
    ensures ps[s + k] == qs[t + k]
  {
    assert ps[s..s + n][k] == qs[t..t + n][k];
  }

  /**
    * A round reads nothing beyond the cards it consumes: any run that agrees
    * on those points deals the same hand, wherever it starts.
    */
  lemma {:induction false} DealFrame(sim: Simulator, ps: seq<nat>, s: nat, qs: seq<nat>, t: nat)
    requires Deal(sim, ps, s).Some?
    requires SameRun(ps, s, qs, t, Deal(sim, ps, s).value.len)
    ensures Deal(sim, qs, t) == Deal(sim, ps, s)
  {
    var n := Deal(sim, ps, s).value.len;
    SameRunAt(ps, s, qs, t, n, 0);
    SameRunAt(ps, s, qs, t, n, 1);
    SameRunAt(ps, s, qs, t, n, 2);
    SameRunAt(ps, s, qs, t, n, 3);
    if n >= 5 {
      SameRunAt(ps, s, qs, t, n, 4);
    }
    if n == 6 {
      SameRunAt(ps, s, qs, t, n, 5);
    }
  }

  /**
    * `None` exactly when fewer than four cards remain, or when a third card the
    * rule requires lies past the end: dealt from any longer run, the same round
    * then needs more cards than `ps` has left. A round that completes is dealt
    * unchanged from every extension.
    */
  lemma {:induction false} DealNoneIff(sim: Simulator, ps: seq<nat>, s: nat, ext: seq<nat>)
    requires |ext| >= 2
    ensures s + 4 <= |ps| ==> Deal(sim, ps + ext, s).Some?
    ensures Deal(sim, ps, s).Some? ==> Deal(sim, ps + ext, s) == Deal(sim, ps, s)
    ensures Deal(sim, ps, s).None? <==> s + 4 > |ps| || s + Deal(sim, ps + ext, s).value.len > |ps|
  {
    var qs := ps + ext;
    if s + 4 <= |ps| {
      assert qs[s] == ps[s] && qs[s + 1] == ps[s + 1] && qs[s + 2] == ps[s + 2] && qs[s + 3] == ps[s + 3];
      if s + 4 < |ps| {
        assert qs[s + 4] == ps[s + 4];
      }
      if s + 5 < |ps| {
        assert qs[s + 5] == ps[s + 5];
      }
    }
  }

  /** Replacing a card by one of equal point value changes no round and no sensitivity flag. */
  lemma EqualPointReplace(sim: Simulator, d: seq<Card>, i: nat, c: Card)
    requires i < |d| && CardPoint(c) == CardPoint(d[i])
    ensures Points(d[i := c]) == Points(d)
    ensures forall s: nat :: RoundAt(sim, d[i := c], s, false).Some? == RoundAt(sim, d, s, false).Some?
    ensures forall s: nat :: Sensitive(sim, Points(d[i := c]), s) == Sensitive(sim, Points(d), s)
  {
    assert Points(d[i := c]) == Points(d);
  }

  /** A natural (8 or 9 on the first two cards of either side) ends the round at four cards. */
  lemma NaturalEndsRound(sim: Simulator, ps: seq<nat>, s: nat)
    requires s + 4 <= |ps|
    requires (ps[s] + ps[s + 2]) % 10 >= 8 || (ps[s + 1] + ps[s + 3]) % 10 >= 8
    ensures Deal(sim, ps, s) == Some(Hand(4, (ps[s] + ps[s + 2]) % 10, (ps[s + 1] + ps[s + 3]) % 10))
  {
  }

  /**
    * A sensitive round stays sensitive on any run with the same points over
    * its own cards: its swapped replay consumes the same cards, so nothing
    * outside them is read.
    */
  lemma {:induction false} SensitiveFrame(sim: Simulator, ps: seq<nat>, s: nat, qs: seq<nat>, t: nat)
    requires Sensitive(sim, ps, s)
    requires SameRun(ps, s, qs, t, Deal(sim, ps, s).value.len)
    ensures Deal(sim, qs, t) == Deal(sim, ps, s) && Sensitive(sim, qs, t)
  {
    var n := Deal(sim, ps, s).value.len;
    DealFrame(sim, ps, s, qs, t);
    var ds := SwapAt(ps, s);
    var es := SwapAt(qs, t);
    assert Deal(sim, ds, s).Some? && Deal(sim, ds, s).value.len == n;
    assert SameRun(ds, s, es, t, n) by {
      SwapSameRun(ps, s, qs, t, n);
    }
    DealFrame(sim, ds, s, es, t);
  }

  /** Two runs that agree still agree once both have their first two cards exchanged. */
  lemma SwapSameRun(ps: seq<nat>, s: nat, qs: seq<nat>, t: nat, n: nat)
    requires SameRun(ps, s, qs, t, n) && n >= 2
    ensures SameRun(SwapAt(ps, s), s, SwapAt(qs, t), t, n)
  {
    var a, b := SwapAt(ps, s)[s..s + n], SwapAt(qs, t)[t..t + n];
    forall k | 0 <= k < n
      ensures a[k] == b[k]
    {
      var k' := if k == 0 then 1 else if k == 1 then 0 else k;
      SameRunAt(ps, s, qs, t, n, k');
    }
  }

  /** A sensitive round run on its own cards from index 0 is still sensitive. */
  lemma SensitiveOnOwnCards(sim: Simulator, ps: seq<nat>, s: nat)
    requires Sensitive(sim, ps, s)
    ensures Deal(sim, ps[s..s + Deal(sim, ps, s).value.len], 0) == Deal(sim, ps, s)
    ensures Sensitive(sim, ps[s..s + Deal(sim, ps, s).value.len], 0)
  {
    var n := Deal(sim, ps, s).value.len;
    var run := ps[s..s + n];
    assert run[0..n] == run;
    SensitiveFrame(sim, ps, s, run, 0);
  }
}

// go/waa.py's treatment of the last few cards of a shoe: the one-round
// helpers `_seq_result`, `_seq_points` and `_is_sensitive_sequence`, the
// automatic resolver `try_make_tail_sensitive` and the manual override
// `try_manual_tail`.

module Tail {
  import opened Base
  import opened Cards
  import opened Engine
  import opened Perms

  /** `_seq_result`: the outcome of `cs` dealt as one round from its first card. */
  function SeqResult(cs: seq<Card>): (r: Option<Outcome>)
    ensures r.Some? ==> |cs| >= 4
    ensures r.Some? ==> SeqPoints(cs).Some? && r.value == OutcomeOf(SeqPoints(cs).value.1, SeqPoints(cs).value.0)
  {
    match Deal(WaaSimulator, Points(cs), 0)
    case None => None
    case Some(h) => SeqPointsAgree(cs); Some(HandOutcome(h))
  }

  /**
    * `_seq_points`: the final (Banker, Player) totals of `cs` as one round.
    * Unlike the engine it never gives up: a third card that is missing is
    * simply not drawn.
    */
  function SeqPoints(cs: seq<Card>): (r: Option<(nat, nat)>)
    ensures r.Some? <==> |cs| >= 4
    ensures r.Some? ==> r.value.0 <= 9 && r.value.1 <= 9
  {
    if |cs| < 4 then None
    else
      var ps := Points(cs);
      var p := (ps[0] + ps[2]) % 10;
      var b := (ps[1] + ps[3]) % 10;
      if p >= 8 || b >= 8 then Some((b, p))
      else if p <= 5 && 4 < |cs| then
        var t := ps[4];
        if BankerDrawsOn(b, t) && 5 < |cs| then Some(((b + ps[5]) % 10, (p + t) % 10))
        else Some((b, (p + t) % 10))
      else if p <= 5 then Some((b, p))
      else if b <= 5 && 4 < |cs| then Some(((b + ps[4]) % 10, p))
      else Some((b, p))
  }

  /** Whenever the engine completes the round, `_seq_points` reports the engine's totals. */
  lemma SeqPointsAgree(cs: seq<Card>)
    requires Deal(WaaSimulator, Points(cs), 0).Some?
    ensures SeqPoints(cs) == Some((Deal(WaaSimulator, Points(cs), 0).value.banker, Deal(WaaSimulator, Points(cs), 0).value.player))
  {
  }

  /** Four zero-point cards: Player must draw and cannot, yet `_seq_points` still reports 0 to 0. */
  lemma SeqPointsIsLenient()
    ensures Deal(WaaSimulator, Points(seq(4, _ => NewCard(10, Spade, 0))), 0).None?
    ensures SeqPoints(seq(4, _ => NewCard(10, Spade, 0))) == Some((0, 0))
  {
    var cs := seq(4, _ => NewCard(10, Spade, 0));
    assert Points(cs) == [0, 0, 0, 0];
  }

  /** The cards form one sensitive round that consumes all of them. */
  predicate SensitiveSequence(cs: seq<Card>)
  {
    |cs| >= 4 && Sensitive(WaaSimulator, Points(cs), 0) && Deal(WaaSimulator, Points(cs), 0).value.len == |cs|
  }

  /** `_is_sensitive_sequence`: deal a renumbered copy through the engine and test the record. */
  method IsSensitiveSequence(cs: seq<Card>) returns (b: bool)
    ensures b <==> SensitiveSequence(cs)
  {
    if |cs| < 4 {
      return false;
    }
    var temp := Relabel(cs);
    PointsOfCopies(cs);
    var r := SimulateRound(temp, 0, false);
    return r.Some? && r.value.sensitive && |r.value.cards| == |temp|;
  }

  function Reverse<T>(s: seq<T>): (r: seq<T>)
    ensures |r| == |s|
    ensures forall i :: 0 <= i < |s| ==> r[i] == s[|s| - 1 - i]
  {
    seq(|s|, i requires 0 <= i < |s| => s[|s| - 1 - i])
  }

  lemma {:induction false} ReverseIsPermutation<T>(s: seq<T>)
    ensures multiset(Reverse(s)) == multiset(s)
  {
    if |s| > 0 {
      assert Reverse(s) == Reverse(s[1..]) + [s[0]];
      assert s == [s[0]] + s[1..];
      ReverseIsPermutation(s[1..]);
    }
  }

  /** The orderings tried before the full search: as dealt, reversed, first two exchanged, second and third exchanged. */
  function Heuristics(t: seq<Card>): (hs: seq<seq<Card>>)
    ensures forall h :: h in hs ==> multiset(h) == multiset(t)
  {
    ReverseIsPermutation(t);
    var first := if |t| >= 2 then SwapAtBag(t, 0); [SwapAt(t, 0)] else [];
    var second := if |t| >= 3 then SwapAtBag(t, 1); [SwapAt(t, 1)] else [];
    [t, Reverse(t)] + first + second
  }

  lemma SwapAtBag(t: seq<Card>, i: nat)
    requires i + 1 < |t|
    ensures multiset(SwapAt(t, i)) == multiset(t)
  {
    var u := t[i := t[i + 1]];
    assert multiset(u) == multiset(t) - multiset{t[i]} + multiset{t[i + 1]};
  }

  /** Every candidate ordering, in the order they are tried. */
  function Candidates(t: seq<Card>): seq<seq<Card>>
  {
    Heuristics(t) + Permutations(t)
  }

  lemma CandidatesArePermutations(t: seq<Card>)
    ensures forall c :: c in Candidates(t) ==> multiset(c) == multiset(t)
  {
    forall c | c in Candidates(t)
      ensures multiset(c) == multiset(t)
    {
      if c !in Heuristics(t) {
        PermutationsSound(t, c);
      }
    }
  }

  /** The first candidate that forms a sensitive round. */
  function FirstSensitive(cs: seq<seq<Card>>): (r: Option<seq<Card>>)
    ensures r.Some? ==> r.value in cs && SensitiveSequence(r.value)
    ensures r.None? <==> forall c :: c in cs ==> !SensitiveSequence(c)
  {
    if |cs| == 0 then None
    else if SensitiveSequence(cs[0]) then Some(cs[0])
    else
      var r := FirstSensitive(cs[1..]);
      assert forall c :: c in cs ==> c == cs[0] || c in cs[1..];
      r
  }

  /**
    * `try_make_tail_sensitive`: nothing unless 4, 5 or 6 cards are left;
    * otherwise the first candidate ordering that forms a sensitive round
    * consuming every card. `None` then means that no ordering at all works.
    */
  method TryMakeTailSensitive(tail: seq<Card>) returns (r: Option<seq<Card>>)
    ensures !(4 <= |tail| <= 6) ==> r == None
    ensures 4 <= |tail| <= 6 ==> r == FirstSensitive(Candidates(tail))
    ensures r.Some? ==> multiset(r.value) == multiset(tail) && SensitiveSequence(r.value)
    ensures r.None? && 4 <= |tail| <= 6 ==>
              forall p :: multiset(p) == multiset(tail) ==> !SensitiveSequence(p)
  {
    if !(4 <= |tail| <= 6) {
      return None;
    }
    var cands := Candidates(tail);
    CandidatesArePermutations(tail);
    for i := 0 to |cands|
      invariant forall j :: 0 <= j < i ==> !SensitiveSequence(cands[j])
    {
      var ok := IsSensitiveSequence(cands[i]);
      if ok {
        FirstSensitiveAt(cands, i);
        return Some(cands[i]);
      }
    }
    assert forall c :: c in cands ==> !SensitiveSequence(c);
    forall p | multiset(p) == multiset(tail)
      ensures !SensitiveSequence(p)
    {
      PermutationsComplete(tail, p);
    }
    r := None;
  }

  lemma {:induction false} FirstSensitiveAt(cs: seq<seq<Card>>, i: nat)
    requires i < |cs| && SensitiveSequence(cs[i])
    requires forall j :: 0 <= j < i ==> !SensitiveSequence(cs[j])
    ensures FirstSensitive(cs) == Some(cs[i])
  {
    if i > 0 {
      FirstSensitiveAt(cs[1..], i - 1);
    }
  }

  /** The index of the last card of `rem` whose face text is `f`. */
  function LastWithShort(rem: seq<Card>, f: string): (j: nat)
    requires f in Shorts(rem)
    ensures j < |rem| && Short(rem[j]) == f
    ensures forall k :: j < k < |rem| ==> Short(rem[k]) != f
  {
    if Short(rem[|rem| - 1]) == f then |rem| - 1
    else
      assert Shorts(rem) == Shorts(rem[..|rem| - 1]) + [Short(rem[|rem| - 1])];
      LastWithShort(rem[..|rem| - 1], f)
  }

  /**
    * The manual rebuild: for each face text in turn, the last remaining tail
    * card with that face. This is what popping the per-face stacks of
    * `try_manual_tail` yields, since each stack holds that face's cards in
    * tail order.
    */
  function TakeByFace(rem: seq<Card>, faces: seq<string>): seq<Card>
    requires multiset(faces) == multiset(Shorts(rem))
    decreases |faces|
  {
    if |faces| == 0 then []
    else
      TakeStep(rem, faces);
      var j := LastWithShort(rem, faces[0]);
      [rem[j]] + TakeByFace(Without(rem, j), faces[1..])
  }

  /** The rebuilt order uses exactly the tail's cards. */
  lemma {:induction false} TakeByFaceCards(rem: seq<Card>, faces: seq<string>)
    requires multiset(faces) == multiset(Shorts(rem))
    ensures multiset(TakeByFace(rem, faces)) == multiset(rem)
    decreases |faces|
  {
    if |faces| == 0 {
      assert |rem| == |multiset(Shorts(rem))| == 0;
    } else {
      TakeStep(rem, faces);
      var j := LastWithShort(rem, faces[0]);
      var w := Without(rem, j);
      TakeByFaceCards(w, faces[1..]);
      var rest := TakeByFace(w, faces[1..]);
      assert multiset(TakeByFace(rem, faces)) == multiset{rem[j]} + multiset(rest) by {
        assert TakeByFace(rem, faces) == [rem[j]] + rest;
      }
      assert multiset(w) + multiset{rem[j]} == multiset(rem) by {
        assert rem[j] in multiset(rem);
      }
    }
  }

  /** The rebuilt order spells out the requested faces. */
  lemma {:induction false} TakeByFaceShorts(rem: seq<Card>, faces: seq<string>)
    requires multiset(faces) == multiset(Shorts(rem))
    ensures Shorts(TakeByFace(rem, faces)) == faces
    decreases |faces|
  {
    if |faces| > 0 {
      TakeStep(rem, faces);
      var j := LastWithShort(rem, faces[0]);
      var rest := TakeByFace(Without(rem, j), faces[1..]);
      TakeByFaceShorts(Without(rem, j), faces[1..]);
      var t := TakeByFace(rem, faces);
      assert t == [rem[j]] + rest;
      assert |Shorts(rest)| == |faces| - 1;
      forall k | 0 <= k < |t|
        ensures Shorts(t)[k] == faces[k]
      {
        if k > 0 {
          assert t[k] == rest[k - 1];
          assert Shorts(rest)[k - 1] == faces[1..][k - 1];
        }
      }
    }
  }

  /** Taking the card for the first face leaves the other faces matching the remaining cards. */
  lemma TakeStep(rem: seq<Card>, faces: seq<string>)
    requires |faces| > 0 && multiset(faces) == multiset(Shorts(rem))
    ensures faces[0] in Shorts(rem)
    ensures multiset(faces[1..]) == multiset(Shorts(Without(rem, LastWithShort(rem, faces[0]))))
  {
    assert faces[0] in multiset(Shorts(rem));
    var j := LastWithShort(rem, faces[0]);
    assert Shorts(Without(rem, j)) == Without(Shorts(rem), j);
    assert faces == [faces[0]] + faces[1..];
  }

  /**
    * `try_manual_tail`: a manual face order is used only when it is
    * non-empty, names exactly the faces left in the tail, and the rebuilt
    * order is a sensitive round consuming every card.
    */
  function TryManualTail(tail: seq<Card>, manual: seq<string>): (r: Option<seq<Card>>)
    ensures r.Some? <==> |manual| > 0 && multiset(manual) == multiset(Shorts(tail))
                         && SensitiveSequence(TakeByFace(tail, manual))
    ensures r.Some? ==> multiset(r.value) == multiset(tail) && Shorts(r.value) == manual
                        && SensitiveSequence(r.value)
  {
    if |manual| == 0 then None
    else if multiset(manual) != multiset(Shorts(tail)) then None
    else
      var ordered := TakeByFace(tail, manual);
      TakeByFaceCards(tail, manual);
      TakeByFaceShorts(tail, manual);
      if SensitiveSequence(ordered) then Some(ordered) else None
  }
}

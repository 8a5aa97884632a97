// Cutting the finished shoe: go/waa.py `simulate_cut_positions`, which
// counts for every cut position how many leading rounds can still be
// played, and the script.js cut, which rotates the deck at the cut, renumbers
// it and deals it again from the top (`simulateCut`, `rebuildRoundsFromDeck`).

module Cut {
  import opened Base
  import opened Cards
  import opened Engine
  import opened Tail

  // ---- go/waa.py `simulate_cut_positions` ----

  /** The tail column of a cut row: '-' without a tail, else the tail's outcome. */
  datatype TailCell = Dash | TailResult(outcome: Option<Outcome>)

  datatype CutRow = CutRow(cut: nat, played: nat, hits: nat, tail: TailCell, tailLen: nat)

  /** How many leading rounds fit completely within the first `cut` cards. */
  function Played(rs: seq<Round>, cut: nat): (n: nat)
    ensures n <= |rs|
  {
    if |rs| == 0 || |rs[0].cards| > cut then 0
    else 1 + Played(rs[1..], cut - |rs[0].cards|)
  }

  /** How many of those leading rounds are sensitive. */
  function Hits(rs: seq<Round>, cut: nat): (n: nat)
  {
    if |rs| == 0 || |rs[0].cards| > cut then 0
    else (if rs[0].sensitive then 1 else 0) + Hits(rs[1..], cut - |rs[0].cards|)
  }

  /** Total number of cards in the rounds. */
  function CardCount(rs: seq<Round>): nat
  {
    if |rs| == 0 then 0 else |rs[0].cards| + CardCount(rs[1..])
  }

  function TailCellOf(tail: seq<Card>): TailCell
  {
    if |tail| == 0 then Dash else TailResult(SeqResult(tail))
  }

  /**
    * `simulate_cut_positions`: one row per cut position 1..total, holding the
    * rounds played before the cut, the sensitive ones among them, and the tail.
    */
  method SimulateCutPositions(rounds: seq<Round>, tail: seq<Card>) returns (rows: seq<CutRow>)
    ensures |rows| == CardCount(rounds) + |tail|
    ensures forall k :: 0 <= k < |rows| ==>
              rows[k] == CutRow(k + 1, Played(rounds, k + 1), Hits(rounds, k + 1), TailCellOf(tail), |tail|)
  {
    var total := 0;
    for j := 0 to |rounds|
      invariant total + CardCount(rounds[j..]) == CardCount(rounds)
    {
      assert rounds[j..][1..] == rounds[j + 1..];
      total := total + |rounds[j].cards|;
    }
    total := total + |tail|;
    rows := [];
    for cutPos := 1 to total + 1
      invariant |rows| == cutPos - 1
      invariant forall k :: 0 <= k < |rows| ==>
                  rows[k] == CutRow(k + 1, Played(rounds, k + 1), Hits(rounds, k + 1), TailCellOf(tail), |tail|)
    {
      var idx := 0;
      var played := 0;
      var hits := 0;
      while played < |rounds|
        invariant played <= |rounds| && idx <= cutPos
        invariant Played(rounds, cutPos) == played + Played(rounds[played..], cutPos - idx)
        invariant Hits(rounds, cutPos) == hits + Hits(rounds[played..], cutPos - idx)
        decreases |rounds| - played
      {
        var r := rounds[played];
        if idx + |r.cards| <= cutPos {
          assert rounds[played..][1..] == rounds[played + 1..];
          if r.sensitive {
            hits := hits + 1;
          }
          idx := idx + |r.cards|;
          played := played + 1;
        } else {
          break;
        }
      }
      var tailRes := if |tail| > 0 then TailResult(SeqResult(tail)) else Dash;
      rows := rows + [CutRow(cutPos, played, hits, tailRes, |tail|)];
    }
  }

  /** A sensitive round is one of the rounds played; all are sensitive in an all-sensitive shoe. */
  lemma {:induction false} HitsAtMostPlayed(rs: seq<Round>, cut: nat)
    ensures Hits(rs, cut) <= Played(rs, cut)
    ensures (forall k :: 0 <= k < |rs| ==> rs[k].sensitive) ==> Hits(rs, cut) == Played(rs, cut)
  {
    if |rs| > 0 && |rs[0].cards| <= cut {
      HitsAtMostPlayed(rs[1..], cut - |rs[0].cards|);
    }
  }

  /** Cutting deeper never plays fewer rounds. */
  lemma {:induction false} PlayedMonotone(rs: seq<Round>, c1: nat, c2: nat)
    requires c1 <= c2
    ensures Played(rs, c1) <= Played(rs, c2)
  {
    if |rs| > 0 && |rs[0].cards| <= c1 {
      PlayedMonotone(rs[1..], c1 - |rs[0].cards|, c2 - |rs[0].cards|);
    }
  }

  /** Cutting below every round plays them all. */
  lemma {:induction false} PlayedAll(rs: seq<Round>, cut: nat)
    requires CardCount(rs) <= cut
    ensures Played(rs, cut) == |rs|
  {
    if |rs| > 0 {
      PlayedAll(rs[1..], cut - |rs[0].cards|);
    }
  }

  // ---- script.js `simulateCut` and `rebuildRoundsFromDeck` ----

  /** The cut position for a requested card count: nothing for a deck of at most one card or a negative count. */
  function NormalizeCut(deckSize: nat, raw: int): (k: Option<nat>)
    ensures k.Some? <==> deckSize > 1 && raw >= 0
    ensures k.Some? ==> k.value < deckSize
    ensures k.Some? && raw < deckSize ==> k.value == raw
    ensures k.Some? ==> raw == (raw / deckSize) * deckSize + k.value
  {
    if deckSize <= 1 || raw < 0 then None else Some(raw % deckSize)
  }

  /** The deck with its first `k` cards moved to the bottom. */
  function Rotate<T>(s: seq<T>, k: nat): (r: seq<T>)
    requires k <= |s|
    ensures |r| == |s|
  {
    s[k..] + s[..k]
  }

  /** Card `i` of the rotated deck is card `i + k` of the deck, counted round the end. */
  lemma RotateAt<T>(s: seq<T>, k: nat, i: nat)
    requires k < |s| && i < |s|
    ensures Rotate(s, k)[i] == s[(i + k) % |s|]
  {
    var n := |s|;
    ModWrap(i + k, n);
    var r := Rotate(s, k);
    if i < n - k {
      assert r[i] == s[k..][i];
    } else {
      assert r[i] == s[..k][i - (n - k)];
    }
  }

  /** Below twice the modulus, the remainder is the number itself or that less the modulus. */
  lemma ModWrap(x: nat, n: nat)
    requires 0 < n && x < 2 * n
    ensures x % n == if x < n then x else x - n
  {
    if x >= n {
      assert x == 1 * n + (x - n);
    } else {
      assert x == 0 * n + x;
    }
  }

  /** Rotating only rearranges the deck. */
  lemma RotateIsPermutation<T>(s: seq<T>, k: nat)
    requires k <= |s|
    ensures multiset(Rotate(s, k)) == multiset(s)
  {
    assert s == s[..k] + s[k..];
  }

  /** Cutting at `k` and then at `n - k` gives back the deck. */
  lemma RotateBack<T>(s: seq<T>, k: nat)
    requires k <= |s|
    ensures Rotate(Rotate(s, k), |s| - k) == s
  {
    assert s == s[..k] + s[k..];
  }

  /**
    * The rotation and renumbering of `simulateCut`: `base` cut at `k`
    * (nothing moved for `k == 0`), then every card's `pos` set to its new index.
    */
  method RotateAndRenumber(base: seq<Card>, k: nat) returns (order: seq<Card>)
    requires k < |base|
    ensures order == Reindex(Rotate(base, k))
  {
    var rotated := if k == 0 then base else base[k..] + base[..k];
    assert k == 0 ==> rotated == Rotate(base, k);
    var a := new Card[|rotated|](i requires 0 <= i < |rotated| => rotated[i]);
    for idx := 0 to a.Length
      invariant forall j :: 0 <= j < idx ==> a[j] == rotated[j].(pos := j)
      invariant forall j :: idx <= j < a.Length ==> a[j] == rotated[j]
    {
      a[idx] := a[idx].(pos := idx);
    }
    order := a[..];
  }

  /** Where dealing from `cursor` stops. */
  function DealOutEnd(deck: seq<Card>, cursor: nat): (e: nat)
    requires cursor <= |deck|
    ensures cursor <= e <= |deck|
    decreases |deck| - cursor
  {
    match Deal(WaaSimulator, Points(deck), cursor)
    case None => cursor
    case Some(h) => DealOutEnd(deck, cursor + h.len)
  }

  /** The rounds dealt one after another from `cursor`, each labelled segment A. */
  function DealOut(deck: seq<Card>, cursor: nat): (rs: seq<Round>)
    requires cursor <= |deck|
    ensures |rs| <= |deck| - cursor
    decreases |deck| - cursor
  {
    match Deal(WaaSimulator, Points(deck), cursor)
    case None => []
    case Some(h) => [RoundAt(WaaSimulator, deck, cursor, false).value.(segment := SegA)] + DealOut(deck, cursor + h.len)
  }

  /**
    * Dealing out loses no card and repeats none: the rounds' cards, in
    * order, are the deck from the cursor to where dealing stops, and
    * followed by what is left they are the deck from the cursor on.
    */
  lemma DealOutCovers(deck: seq<Card>, cursor: nat)
    requires cursor <= |deck|
    ensures Flatten(DealOut(deck, cursor)) == deck[cursor..DealOutEnd(deck, cursor)]
    ensures Flatten(DealOut(deck, cursor)) + deck[DealOutEnd(deck, cursor)..] == deck[cursor..]
  {
    DealOutFlat(deck, cursor);
    SuffixSplit(deck, cursor, DealOutEnd(deck, cursor));
  }

  /** The rounds' cards, in order, are the deck from the cursor to where dealing stops. */
  predicate FlatTo(deck: seq<Card>, cursor: nat)
    requires cursor <= |deck|
  {
    Flatten(DealOut(deck, cursor)) == deck[cursor..DealOutEnd(deck, cursor)]
  }

  lemma {:induction false} DealOutFlat(deck: seq<Card>, cursor: nat)
    requires cursor <= |deck|
    ensures FlatTo(deck, cursor)
    decreases |deck| - cursor
  {
    match Deal(WaaSimulator, Points(deck), cursor)
    case None =>
      assert StopsAt(deck, cursor);
    case Some(h) =>
      DealOutFlat(deck, cursor + h.len);
      DealOutFlatStep(deck, cursor, h);
  }

  /** One round more at the front keeps the cards in order. */
  lemma DealOutFlatStep(deck: seq<Card>, cursor: nat, h: Hand)
    requires cursor <= |deck| && Deal(WaaSimulator, Points(deck), cursor) == Some(h)
    requires FlatTo(deck, cursor + h.len)
    ensures FlatTo(deck, cursor)
  {
    var r := RoundAt(WaaSimulator, deck, cursor, false).value.(segment := SegA);
    DealOutUnfold(deck, cursor, h, r);
    DealOutCoverStep(deck, cursor, h, r, DealOut(deck, cursor + h.len));
  }

  /** The round dealt at the cursor holds the cards up to where the next one starts. */
  lemma DealOutCoverStep(deck: seq<Card>, cursor: nat, h: Hand, r: Round, rest: seq<Round>)
    requires cursor <= |deck| && Deal(WaaSimulator, Points(deck), cursor) == Some(h)
    requires r == RoundAt(WaaSimulator, deck, cursor, false).value.(segment := SegA)
    requires Flatten(rest) == deck[cursor + h.len..DealOutEnd(deck, cursor + h.len)]
    ensures Flatten([r] + rest) == deck[cursor..DealOutEnd(deck, cursor + h.len)]
  {
    RoundAtFields(WaaSimulator, deck, cursor);
    FlattenCons(r, rest);
    SliceConcat(deck, cursor, cursor + h.len, DealOutEnd(deck, cursor + h.len));
  }

  /** What is left after dealing out cannot be dealt as a round. */
  lemma {:induction false} DealOutStops(deck: seq<Card>, cursor: nat)
    requires cursor <= |deck|
    ensures Deal(WaaSimulator, Points(deck), DealOutEnd(deck, cursor)).None?
    decreases |deck| - cursor
  {
    match Deal(WaaSimulator, Points(deck), cursor)
    case None =>
    case Some(h) => DealOutStops(deck, cursor + h.len);
  }

  /**
    * `rebuildRoundsFromDeck`: deal rounds from the top while four cards are
    * left and a round completes; the cards after the last round are the tail.
    */
  method RebuildRoundsFromDeck(deck: seq<Card>) returns (rounds: seq<Round>, tail: seq<Card>)
    ensures rounds == DealOut(deck, 0)
    ensures tail == deck[DealOutEnd(deck, 0)..]
  {
    rounds := [];
    var cursor := 0;
    while cursor + 3 < |deck|
      invariant Rebuilt(deck, rounds, cursor)
      decreases |deck| - cursor
    {
      var info := SimulateRound(deck, cursor, false);
      if info.None? || |info.value.cards| == 0 {
        DealOutEnds(deck, cursor);
        break;
      }
      var r := info.value.(segment := SegA);
      ghost var next := RebuildStep(deck, rounds, cursor, r);
      rounds := rounds + [r];
      cursor := cursor + |r.cards|;
      assert cursor == next;
    }
    if cursor + 3 >= |deck| {
      DealOutShort(deck, cursor);
    }
    RebuildDone(deck, rounds, cursor);
    tail := if cursor < |deck| then deck[cursor..] else [];
  }

  /** The rounds kept so far, then those dealt from `cursor`, are all the rounds dealt out. */
  predicate Rebuilt(deck: seq<Card>, rounds: seq<Round>, cursor: nat)
  {
    cursor <= |deck|
    && rounds + DealOut(deck, cursor) == DealOut(deck, 0)
    && DealOutEnd(deck, cursor) == DealOutEnd(deck, 0)
  }

  /** Nothing is dealt from `cursor`. */
  predicate StopsAt(deck: seq<Card>, cursor: nat)
    requires cursor <= |deck|
  {
    DealOut(deck, cursor) == [] && DealOutEnd(deck, cursor) == cursor
  }

  /** The loop stops exactly where dealing out stops. */
  lemma DealOutEnds(deck: seq<Card>, cursor: nat)
    requires cursor <= |deck|
    requires RoundAt(WaaSimulator, deck, cursor, false).None? || |RoundAt(WaaSimulator, deck, cursor, false).value.cards| == 0
    ensures StopsAt(deck, cursor)
  {
    if RoundAt(WaaSimulator, deck, cursor, false).Some? {
      RoundAtFields(WaaSimulator, deck, cursor);
    }
  }

  /** Fewer than four cards left: dealing out stops there. */
  lemma DealOutShort(deck: seq<Card>, cursor: nat)
    requires cursor <= |deck| && cursor + 3 >= |deck|
    ensures StopsAt(deck, cursor)
  {
  }

  /** A round the loop keeps is the next round dealt out. */
  lemma RebuildStep(deck: seq<Card>, rounds: seq<Round>, cursor: nat, r: Round) returns (next: nat)
    requires Rebuilt(deck, rounds, cursor) && RoundAt(WaaSimulator, deck, cursor, false).Some?
    requires r == RoundAt(WaaSimulator, deck, cursor, false).value.(segment := SegA)
    ensures next == cursor + |r.cards| && Rebuilt(deck, rounds + [r], next)
  {
    RoundAtFields(WaaSimulator, deck, cursor);
    var h := Deal(WaaSimulator, Points(deck), cursor).value;
    next := cursor + h.len;
    DealOutUnfold(deck, cursor, h, r);
    AppendStep(rounds, r, DealOut(deck, next), DealOut(deck, cursor), DealOut(deck, 0));
  }

  /** Where a round is dealt at the cursor, dealing out is that round and then dealing out after it. */
  lemma DealOutUnfold(deck: seq<Card>, cursor: nat, h: Hand, r: Round)
    requires cursor <= |deck| && Deal(WaaSimulator, Points(deck), cursor) == Some(h)
    requires r == RoundAt(WaaSimulator, deck, cursor, false).value.(segment := SegA)
    ensures DealOut(deck, cursor) == [r] + DealOut(deck, cursor + h.len)
    ensures DealOutEnd(deck, cursor) == DealOutEnd(deck, cursor + h.len)
  {
    DealOutEndUnfold(deck, cursor, h);
    DealOutSome(deck, cursor);
  }

  lemma DealOutSome(deck: seq<Card>, cursor: nat)
    requires cursor <= |deck| && Deal(WaaSimulator, Points(deck), cursor).Some?
    ensures DealOut(deck, cursor)
            == [RoundAt(WaaSimulator, deck, cursor, false).value.(segment := SegA)]
               + DealOut(deck, cursor + Deal(WaaSimulator, Points(deck), cursor).value.len)
  {
  }

  lemma DealOutEndUnfold(deck: seq<Card>, cursor: nat, h: Hand)
    requires cursor <= |deck| && Deal(WaaSimulator, Points(deck), cursor) == Some(h)
    ensures DealOutEnd(deck, cursor) == DealOutEnd(deck, cursor + h.len)
  {
  }

  /** Where the loop stops, the rounds kept are all the rounds dealt out. */
  lemma RebuildDone(deck: seq<Card>, rounds: seq<Round>, cursor: nat)
    requires Rebuilt(deck, rounds, cursor) && StopsAt(deck, cursor)
    ensures rounds == DealOut(deck, 0) && cursor == DealOutEnd(deck, 0)
  {
    assert rounds + [] == rounds;
  }
}

// The segment helpers of the JavaScript ports: the text test for a tie
// result (`_is_tie_result`), the S index list of one segment
// (`compute_sidx_for_segment`, linear in script.js and
// red-zero-signal-test.js, cyclic in signals.js), and the split of a
// leftover tail into non-sensitive B rounds and the residue C cards
// (`build_B_and_C_segments_from_tail`).

module JsSegments {
  import opened Base
  import opened Cards
  import opened Engine
  import opened NestedEngine
  import opened Suits
  import opened Pool
  import opened WaaPack

  // ---- `_is_tie_result` ----

  /** The characters `String.prototype.trim` strips: white space and line terminators. */
  predicate IsWhite(ch: char)
  {
    ch == ' ' || ch == '\t' || ch == '\n' || ch == '\r' || ch == '\U{000B}' || ch == '\U{000C}'
    || ch == '\U{00A0}' || ch == '\U{1680}' || ('\U{2000}' <= ch <= '\U{200A}') || ch == '\U{2028}'
    || ch == '\U{2029}' || ch == '\U{202F}' || ch == '\U{205F}' || ch == '\U{3000}' || ch == '\U{FEFF}'
  }

  /** How many white characters open `s`. */
  function Lead(s: string): (n: nat)
    ensures n <= |s|
    ensures forall k :: 0 <= k < n ==> IsWhite(s[k])
    ensures n < |s| ==> !IsWhite(s[n])
  {
    if |s| == 0 || !IsWhite(s[0]) then 0 else 1 + Lead(s[1..])
  }

  /** How many white characters close `s`. */
  function Trail(s: string): (n: nat)
    ensures n <= |s|
    ensures forall k :: |s| - n <= k < |s| ==> IsWhite(s[k])
    ensures n < |s| ==> !IsWhite(s[|s| - 1 - n])
  {
    if |s| == 0 || !IsWhite(s[|s| - 1]) then 0 else 1 + Trail(s[..|s| - 1])
  }

  /**
    * `s.trim()`: the slice of `s` left once white characters are cut from
    * both ends. It starts and ends with a non-white character, and every
    * character cut is white.
    */
  function Trim(s: string): (t: string)
    ensures Lead(s) + |t| <= |s| && t == s[Lead(s)..Lead(s) + |t|]
    ensures |t| > 0 ==> !IsWhite(t[0]) && !IsWhite(t[|t| - 1])
    ensures forall k :: 0 <= k < |s| && !(Lead(s) <= k < Lead(s) + |t|) ==> IsWhite(s[k])
  {
    var rest := s[Lead(s)..];
    rest[..|rest| - Trail(rest)]
  }

  /** A round's `result` field as it appears in the JavaScript records; `None` for `null`. */
  function ResultText(l: Label): (t: Option<string>)
    ensures t.None? <==> l.Missing?
  {
    match l
    case Won(Banker) => Some("莊")
    case Won(Player) => Some("閒")
    case Won(Tie) => Some("和")
    case Residue => Some("殘牌")
    case Missing => None
  }

  /** `_is_tie_result`: a string that, trimmed, is 和, Tie or T. */
  function IsTieResult(v: Option<string>): (b: bool)
  {
    v.Some? && Trim(v.value) in ["和", "Tie", "T"]
  }

  /** On the results the ports actually store, `_is_tie_result` is exactly the tie label. */
  lemma TieResultOfLabel(l: Label)
    ensures IsTieResult(ResultText(l)) <==> IsTieLabel(l)
  {
    match l
    case Won(o) =>
      var t := ResultText(l).value;
      assert Lead(t) == 0 && Trail(t) == 0;
      assert Trim(t) == t;
    case Residue =>
      assert Lead("殘牌") == 0 && Trail("殘牌") == 0;
      assert Trim("殘牌") == "殘牌";
    case Missing =>
  }

  /** Surrounding white space does not hide a tie: ` Tie ` is one. */
  lemma TieResultTrims()
    ensures IsTieResult(Some(" Tie\n"))
    ensures !IsTieResult(Some("T ie"))
  {
    assert Lead(" Tie\n") == 1;
    assert Trail(" Tie\n"[1..]) == 1;
    assert Trim(" Tie\n") == "Tie";
    assert Lead("T ie") == 0 && Trail("T ie") == 0;
    assert Trim("T ie") == "T ie";
  }

  // ---- `compute_sidx_for_segment` ----

  /** Round `i` belongs to segment `seg` and the round after it is a Banker win. */
  predicate BeforeBanker(rs: seq<Round>, seg: Segment, i: nat)
  {
    i + 1 < |rs| && rs[i].segment == seg && IsBankerLabel(rs[i + 1].result)
  }

  /** The indices `i >= from` of rounds of segment `seg` followed by a Banker win, in increasing order. */
  function SegmentBefore(rs: seq<Round>, seg: Segment, from: nat): (ix: seq<nat>)
    ensures forall i: nat :: i in ix <==> from <= i && BeforeBanker(rs, seg, i)
    ensures forall a, b :: 0 <= a < b < |ix| ==> ix[a] < ix[b]
    ensures forall a :: 0 <= a < |ix| ==> from <= ix[a]
    decreases |rs| - from
  {
    if from + 1 >= |rs| then []
    else if BeforeBanker(rs, seg, from) then [from] + SegmentBefore(rs, seg, from + 1)
    else SegmentBefore(rs, seg, from + 1)
  }

  /**
    * The linear `compute_sidx_for_segment` of script.js and
    * red-zero-signal-test.js: the rounds of segment `seg` whose next round
    * is a Banker win, in increasing order.
    */
  function SIdxForSegment(rs: seq<Round>, seg: Segment): (ix: seq<nat>)
    ensures forall i: nat :: i in ix <==> BeforeBanker(rs, seg, i)
    ensures forall a, b :: 0 <= a < b < |ix| ==> ix[a] < ix[b]
  {
    SegmentBefore(rs, seg, 0)
  }

  /** The last round of segment `seg` counts when the first round is a Banker win (signals.js only). */
  predicate WrapsToFirst(rs: seq<Round>, seg: Segment)
  {
    |rs| > 1 && rs[|rs| - 1].segment == seg && IsBankerLabel(rs[0].result)
  }

  /**
    * The cyclic `compute_sidx_for_segment` of signals.js: the linear list,
    * and the last round too when it belongs to `seg` and the first round
    * is a Banker win. The indices increase.
    */
  function CyclicSIdxForSegment(rs: seq<Round>, seg: Segment): (ix: seq<nat>)
    ensures forall i: nat :: i in ix <==> BeforeBanker(rs, seg, i) || (i == |rs| - 1 && WrapsToFirst(rs, seg))
    ensures forall a, b :: 0 <= a < b < |ix| ==> ix[a] < ix[b]
  {
    SIdxBelowLast(rs, seg);
    SIdxForSegment(rs, seg) + if WrapsToFirst(rs, seg) then [|rs| - 1] else []
  }

  lemma SIdxBelowLast(rs: seq<Round>, seg: Segment)
    ensures forall a :: 0 <= a < |SIdxForSegment(rs, seg)| ==> SIdxForSegment(rs, seg)[a] < |rs| - 1
  {
    var lin := SIdxForSegment(rs, seg);
    forall a | 0 <= a < |lin|
      ensures lin[a] < |rs| - 1
    {
      assert lin[a] in lin;
    }
  }

  lemma HeadIn(a: seq<nat>)
    ensures |a| > 0 ==> a[0] in a
  {
  }

  /** Two increasing index lists with the same members are the same list. */
  lemma {:induction false} IncreasingUnique(a: seq<nat>, b: seq<nat>)
    requires forall x, y :: 0 <= x < y < |a| ==> a[x] < a[y]
    requires forall x, y :: 0 <= x < y < |b| ==> b[x] < b[y]
    requires forall i :: i in a <==> i in b
    ensures a == b
  {
    HeadIn(a);
    HeadIn(b);
    if |a| > 0 && |b| > 0 {
      assert b[0] <= a[0] by {
        assert a[0] in b;
        var y :| 0 <= y < |b| && b[y] == a[0];
      }
      assert a[0] <= b[0] by {
        assert b[0] in a;
        var x :| 0 <= x < |a| && a[x] == b[0];
      }
      forall i
        ensures i in a[1..] <==> i in b[1..]
      {
        if i in a[1..] {
          var x :| 1 <= x < |a| && a[x] == i;
          assert i in b && i != b[0];
        }
        if i in b[1..] {
          var y :| 1 <= y < |b| && b[y] == i;
          assert i in a && i != a[0];
        }
      }
      IncreasingUnique(a[1..], b[1..]);
      assert a == [a[0]] + a[1..] && b == [b[0]] + b[1..];
    }
  }

  /** The `result` of every round. */
  function Results(rs: seq<Round>): (ls: seq<Label>)
    ensures |ls| == |rs| && forall i :: 0 <= i < |rs| ==> ls[i] == rs[i].result
  {
    seq(|rs|, i requires 0 <= i < |rs| => rs[i].result)
  }

  /**
    * On a shoe whose rounds all belong to segment A, the linear JavaScript
    * list is go/waa.py's `compute_sidx_new`.
    */
  lemma SIdxForSegmentMatchesPython(rs: seq<Round>)
    requires forall k :: 0 <= k < |rs| ==> rs[k].segment == SegA
    ensures SIdxForSegment(rs, SegA) == SIdx(Results(rs))
  {
    forall i: nat
      ensures i in SIdxForSegment(rs, SegA) <==> i in SIdx(Results(rs))
    {
    }
    IncreasingUnique(SIdxForSegment(rs, SegA), SIdx(Results(rs)));
  }

  /** The cyclic list extends the linear one by at most the last index. */
  lemma CyclicExtendsLinear(rs: seq<Round>, seg: Segment)
    ensures |CyclicSIdxForSegment(rs, seg)| <= |SIdxForSegment(rs, seg)| + 1
    ensures CyclicSIdxForSegment(rs, seg)[..|SIdxForSegment(rs, seg)|] == SIdxForSegment(rs, seg)
    ensures !WrapsToFirst(rs, seg) ==> CyclicSIdxForSegment(rs, seg) == SIdxForSegment(rs, seg)
  {
    var lin := SIdxForSegment(rs, seg);
    var cyc := CyclicSIdxForSegment(rs, seg);
    var extra := if WrapsToFirst(rs, seg) then [|rs| - 1] else [];
    assert cyc == lin + extra;
    assert (lin + extra)[..|lin|] == lin;
  }

  // ---- `build_B_and_C_segments_from_tail` ----

  /**
    * A B round: the engine's record for its own cards dealt from the first
    * one, using all of them, flagged not sensitive, in segment B. Its
    * `start_index` is the first card's `pos` (red-zero-signal-test.js) or,
    * where the source reads `.pos` of the array, undefined (script.js).
    */
  predicate BRound(sim: Simulator, r: Round, firstCardStart: bool)
  {
    Deal(sim, Points(r.cards), 0).Some? && Deal(sim, Points(r.cards), 0).value.len == |r.cards|
    && r.result == Won(HandOutcome(Deal(sim, Points(r.cards), 0).value))
    && !r.sensitive && r.segment == SegB && !r.isT && !r.swapped
    && r.start == (if firstCardStart && |r.cards| > 0 then At(r.cards[0].pos) else Undefined)
  }

  /** The B record the loop builds from the slice `cs` of the tail. */
  function BRecord(cs: seq<Card>, h: Hand, firstCardStart: bool): Round
  {
    Round(if firstCardStart && |cs| > 0 then At(cs[0].pos) else Undefined,
          cs, Won(HandOutcome(h)), false, SegB, false, false)
  }

  /** The round dealt at `i` of the tail, cut out, is a B round. */
  lemma BSlice(sim: Simulator, tail: seq<Card>, i: nat, h: Hand, firstCardStart: bool)
    requires Deal(sim, Points(tail), i) == Some(h)
    ensures i + h.len <= |tail|
    ensures BRound(sim, BRecord(tail[i..i + h.len], h, firstCardStart), firstCardStart)
  {
    var cs := tail[i..i + h.len];
    assert Points(cs) == Points(tail)[i..i + h.len];
    assert Points(cs)[0..h.len] == Points(tail)[i..i + h.len];
    DealFrame(sim, Points(tail), i, Points(cs), 0);
  }

  /**
    * The walk's bookkeeping: `used` holds the positions of the B rounds and,
    * on a tail without repeated positions, the ledger of disjoint rounds
    * holds and no card from `i` on is used.
    */
  ghost predicate Walk(tail: seq<Card>, b: seq<Round>, used: set<int>, i: nat)
  {
    used == RoundPositions(b)
    && (DistinctPositions(tail) ==> Ledger(tail, b, used))
    && (DistinctPositions(tail) ==> forall k :: i <= k < |tail| ==> tail[k].pos !in used)
  }

  /** No card after the slice `tail[i..j]` shares a position with it. */
  lemma PastSlice(tail: seq<Card>, i: nat, j: nat, used: set<int>)
    requires DistinctPositions(tail) && i <= j <= |tail|
    requires forall k :: i <= k < |tail| ==> tail[k].pos !in used
    ensures forall k :: j <= k < |tail| ==> tail[k].pos !in used + Positions(tail[i..j])
  {
    forall k | j <= k < |tail|
      ensures tail[k].pos !in used + Positions(tail[i..j])
    {
      forall x | x in tail[i..j]
        ensures x.pos != tail[k].pos
      {
        var m :| i <= m < j && tail[m] == x;
      }
    }
  }

  /** The cards of the slice `tail[i..j]` are the entries `i` to `j - 1`. */
  lemma SliceFresh(tail: seq<Card>, i: nat, j: nat, used: set<int>)
    requires i <= j <= |tail|
    requires forall k :: i <= k < |tail| ==> tail[k].pos !in used
    ensures forall c :: c in tail[i..j] ==> c.pos !in used
  {
    forall c | c in tail[i..j]
      ensures c.pos !in used
    {
      var m :| 0 <= m < j - i && tail[i..j][m] == c;
      assert tail[i + m] == c;
    }
  }

  /** Cutting the round dealt at `i` out of the tail keeps the walk's bookkeeping. */
  lemma AppendB(tail: seq<Card>, b: seq<Round>, used: set<int>, i: nat, n: nat, round: Round)
    requires i + n <= |tail| && round.cards == tail[i..i + n]
    requires Walk(tail, b, used, i)
    ensures Walk(tail, b + [round], used + Positions(tail[i..i + n]), i + n)
  {
    var used' := used + Positions(round.cards);
    RoundPositionsAppend(b, round);
    assert used' == RoundPositions(b + [round]);
    if DistinctPositions(tail) {
      assert Ledger(tail, b + [round], used') by {
        assert Ledger(tail, b, used);
        SliceFresh(tail, i, i + n, used);
        assert forall c :: c in round.cards ==> c.pos !in used;
        SliceOfUnused(tail, i, i + n, used);
        assert multiset(round.cards) <= multiset(Unused(tail, used));
        LedgerAppend(tail, b, used, round);
      }
      PastSlice(tail, i, i + n, used);
    }
  }

  /** Every round of `b` is a B round cut from the tail. */
  predicate AllB(sim: Simulator, tail: seq<Card>, b: seq<Round>, firstCardStart: bool)
  {
    |b| == 0
    || (BRound(sim, b[0], firstCardStart) && DeckSlice(tail, b[0].cards) && AllB(sim, tail, b[1..], firstCardStart))
  }

  lemma {:induction false} AllBAppend(sim: Simulator, tail: seq<Card>, b: seq<Round>, r: Round, firstCardStart: bool)
    requires AllB(sim, tail, b, firstCardStart) && BRound(sim, r, firstCardStart) && DeckSlice(tail, r.cards)
    ensures AllB(sim, tail, b + [r], firstCardStart)
  {
    if |b| > 0 {
      assert (b + [r])[1..] == b[1..] + [r];
      AllBAppend(sim, tail, b[1..], r, firstCardStart);
    } else {
      assert ([] + [r])[1..] == [];
    }
  }

  lemma {:induction false} AllBAt(sim: Simulator, tail: seq<Card>, b: seq<Round>, firstCardStart: bool)
    requires AllB(sim, tail, b, firstCardStart)
    ensures forall k :: 0 <= k < |b| ==> BRound(sim, b[k], firstCardStart) && DeckSlice(tail, b[k].cards)
  {
    if |b| > 0 {
      AllBAt(sim, tail, b[1..], firstCardStart);
      assert forall k :: 1 <= k < |b| ==> b[k] == b[1..][k - 1];
    }
  }

  /** One step of the walk that finds a round at `i`. */
  lemma BStep(sim: Simulator, tail: seq<Card>, b: seq<Round>, used: set<int>, i: nat, h: Hand, firstCardStart: bool)
    requires Deal(sim, Points(tail), i) == Some(h)
    requires AllB(sim, tail, b, firstCardStart) && Walk(tail, b, used, i)
    ensures i + h.len <= |tail|
    ensures AllB(sim, tail, b + [BRecord(tail[i..i + h.len], h, firstCardStart)], firstCardStart)
    ensures Walk(tail, b + [BRecord(tail[i..i + h.len], h, firstCardStart)], used + Positions(tail[i..i + h.len]), i + h.len)
  {
    var round := BRecord(tail[i..i + h.len], h, firstCardStart);
    BSlice(sim, tail, i, h, firstCardStart);
    assert DeckSlice(tail, round.cards);
    AppendB(tail, b, used, i, h.len, round);
    AllBAppend(sim, tail, b, round, firstCardStart);
  }

  /**
    * The B rounds of the walk from `i` on, as a reference: where a round can
    * be dealt at `i` its cards are cut out as a B round and the walk resumes
    * right after them; elsewhere it moves one card on. Past the end there is
    * nothing left to cut.
    */
  function GreedyB(sim: Simulator, tail: seq<Card>, i: nat, firstCardStart: bool): seq<Round>
    requires i <= |tail|
    decreases |tail| - i
  {
    if i == |tail| then []
    else
      match Deal(sim, Points(tail), i)
      case None => GreedyB(sim, tail, i + 1, firstCardStart)
      case Some(h) => [BRecord(tail[i..i + h.len], h, firstCardStart)] + GreedyB(sim, tail, i + h.len, firstCardStart)
  }

  /** A tail of fewer than four cards holds no round, so the walk cuts nothing. */
  lemma {:induction false} GreedyBShort(sim: Simulator, tail: seq<Card>, i: nat, firstCardStart: bool)
    requires i <= |tail| < 4
    ensures GreedyB(sim, tail, i, firstCardStart) == []
    decreases |tail| - i
  {
    if i < |tail| {
      GreedyBShort(sim, tail, i + 1, firstCardStart);
    }
  }

  /** `sim.simulate_round(i, { no_swap: true })` on the renumbered copies of the tail: the hand dealt at `i`. */
  method DealCopies(sim: Simulator, tail: seq<Card>, i: nat) returns (h: Option<Hand>)
    ensures h == Deal(sim, Points(tail), i)
  {
    var temp := Reindex(tail);
    PointsOfCopies(tail);
    var r := SimulateWith(sim, temp, i, true);
    if r.None? {
      return None;
    }
    h := Deal(sim, Points(tail), i);
    assert |r.value.cards| == h.value.len;
  }

  /** Moving one card on keeps the walk's bookkeeping. */
  lemma WalkSkip(tail: seq<Card>, b: seq<Round>, used: set<int>, i: nat, firstCardStart: bool)
    requires Walk(tail, b, used, i)
    ensures Walk(tail, b, used, i + 1)
    ensures WalkMove(tail, None, b, i, b, i + 1, firstCardStart)
  {
  }

  lemma CutMove(tail: seq<Card>, h: Hand, b: seq<Round>, i: nat, firstCardStart: bool)
    requires i + h.len <= |tail|
    ensures WalkMove(tail, Some(h), b, i, b + [BRecord(tail[i..i + h.len], h, firstCardStart)], i + h.len, firstCardStart)
  {
  }

  /**
    * What one step at `i` does to the rounds and the index, given the hand
    * `dealt` there: with no round, nothing is cut and the walk moves one card on; otherwise
    * the round's cards are cut as a B round and the walk jumps past them.
    */
  predicate WalkMove(tail: seq<Card>, dealt: Option<Hand>, b: seq<Round>, i: nat, b': seq<Round>, i': nat,
                     firstCardStart: bool)
  {
    match dealt
    case None => b' == b && i' == i + 1
    case Some(h) => i + h.len <= |tail| && i' == i + h.len && b' == b + [BRecord(tail[i..i + h.len], h, firstCardStart)]
  }

  /**
    * One step of the walk at `i`: where a round can be dealt it becomes a B
    * round and the walk jumps past it, else the walk moves one card on.
    */
  method WalkStep(sim: Simulator, tail: seq<Card>, b: seq<Round>, used: set<int>, i: nat, firstCardStart: bool)
    returns (b': seq<Round>, used': set<int>, i': nat)
    requires i < |tail| && AllB(sim, tail, b, firstCardStart) && Walk(tail, b, used, i)
    ensures i < i' <= |tail| && AllB(sim, tail, b', firstCardStart) && Walk(tail, b', used', i')
    ensures WalkMove(tail, Deal(sim, Points(tail), i), b, i, b', i', firstCardStart)
  {
    var dealt := DealCopies(sim, tail, i);
    if dealt.None? {
      WalkSkip(tail, b, used, i, firstCardStart);
      b', used', i' := b, used, i + 1;
    } else {
      var h := dealt.value;
      BStep(sim, tail, b, used, i, h, firstCardStart);
      CutMove(tail, h, b, i, firstCardStart);
      // The source also tests the round's copies against the indices already
      // taken; the walk never returns to a taken index, so that test always passes.
      var cs := tail[i..i + h.len];
      b', used', i' := b + [BRecord(cs, h, firstCardStart)], used + Positions(cs), i + h.len;
    }
  }

  /** What the reference cuts from `i` on, once the deal at `i` is known. */
  function GreedyFrom(sim: Simulator, tail: seq<Card>, dealt: Option<Hand>, i: nat, firstCardStart: bool): seq<Round>
    requires i < |tail| && (dealt.Some? ==> i + dealt.value.len <= |tail|)
  {
    match dealt
    case None => GreedyB(sim, tail, i + 1, firstCardStart)
    case Some(h) => [BRecord(tail[i..i + h.len], h, firstCardStart)] + GreedyB(sim, tail, i + h.len, firstCardStart)
  }

  lemma GreedyUnfold(sim: Simulator, tail: seq<Card>, i: nat, firstCardStart: bool)
    requires i < |tail|
    ensures Deal(sim, Points(tail), i).Some? ==> i + Deal(sim, Points(tail), i).value.len <= |tail|
    ensures GreedyB(sim, tail, i, firstCardStart) == GreedyFrom(sim, tail, Deal(sim, Points(tail), i), i, firstCardStart)
  {
  }

  /** One move of the walk, whatever the deal, takes the next round of the reference. */
  lemma GreedyMove(sim: Simulator, tail: seq<Card>, dealt: Option<Hand>, b: seq<Round>, i: nat, b': seq<Round>, i': nat,
                   firstCardStart: bool)
    requires i < |tail| && WalkMove(tail, dealt, b, i, b', i', firstCardStart)
    ensures b' + GreedyB(sim, tail, i', firstCardStart) == b + GreedyFrom(sim, tail, dealt, i, firstCardStart)
  {
    if dealt.Some? {
      var r := BRecord(tail[i..i + dealt.value.len], dealt.value, firstCardStart);
      assert b + [r] + GreedyB(sim, tail, i', firstCardStart) == b + ([r] + GreedyB(sim, tail, i', firstCardStart));
    }
  }

  /** Taking one more step of the walk leaves the reference's remaining rounds to cut. */
  lemma GreedyStep(sim: Simulator, tail: seq<Card>, b: seq<Round>, i: nat, b': seq<Round>, i': nat,
                   firstCardStart: bool)
    requires i < i' <= |tail| && WalkMove(tail, Deal(sim, Points(tail), i), b, i, b', i', firstCardStart)
    ensures b' + GreedyB(sim, tail, i', firstCardStart) == b + GreedyB(sim, tail, i, firstCardStart)
  {
    GreedyUnfold(sim, tail, i, firstCardStart);
    GreedyMove(sim, tail, Deal(sim, Points(tail), i), b, i, b', i', firstCardStart);
  }

  /** The walk of `build_B_and_C_segments_from_tail` over the tail, with the positions it took. */
  method WalkTail(sim: Simulator, tail: seq<Card>, firstCardStart: bool) returns (b: seq<Round>, used: set<int>)
    ensures AllB(sim, tail, b, firstCardStart) && Walk(tail, b, used, |tail|)
    ensures b == GreedyB(sim, tail, 0, firstCardStart)
  {
    b := [];
    used := {};
    EmptyLedger(tail);
    var i: nat := 0;
    while i < |tail|
      invariant i <= |tail|
      invariant AllB(sim, tail, b, firstCardStart)
      invariant Walk(tail, b, used, i)
      invariant b + GreedyB(sim, tail, i, firstCardStart) == GreedyB(sim, tail, 0, firstCardStart)
      decreases |tail| - i
    {
      var b', used', i' := WalkStep(sim, tail, b, used, i, firstCardStart);
      GreedyStep(sim, tail, b, i, b', i', firstCardStart);
      b, used, i := b', used', i';
    }
    assert b + [] == b;
  }

  /**
    * `build_B_and_C_segments_from_tail`: under four cards, no B rounds and
    * the whole tail as C cards. Otherwise walk the tail from the left: where
    * a round can be dealt (without the sensitivity test) it becomes a B
    * round and the walk jumps past it, else the walk moves one card on; the
    * B rounds are exactly those of `GreedyB`. The C cards are the tail cards
    * whose positions no B round holds; on a tail without repeated positions
    * the B rounds are disjoint and, with the C cards, are exactly the tail.
    */
  method BuildBAndCSegments(sim: Simulator, tail: seq<Card>, firstCardStart: bool) returns (b: seq<Round>, c: seq<Card>)
    ensures b == GreedyB(sim, tail, 0, firstCardStart)
    ensures |tail| < 4 ==> c == tail
    ensures forall k :: 0 <= k < |b| ==> BRound(sim, b[k], firstCardStart) && DeckSlice(tail, b[k].cards)
    ensures c == Unused(tail, RoundPositions(b))
    ensures DistinctPositions(tail) ==> PairwiseDisjoint(b)
    ensures DistinctPositions(tail) ==> multiset(Flatten(b)) + multiset(c) == multiset(tail)
  {
    if |tail| < 4 {
      UnusedOfNothing(tail);
      assert RoundPositions([]) == {};
      GreedyBShort(sim, tail, 0, firstCardStart);
      return [], tail;
    }
    var used;
    b, used := WalkTail(sim, tail, firstCardStart);
    c := Unused(tail, used);
    AllBAt(sim, tail, b, firstCardStart);
  }
}

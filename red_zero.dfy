// red-zero-signal-test.js: laying sensitive rounds out as S rounds
// (`arrange_as_s_rounds`) and moving the number of Banker wins by swapping
// the first two cards of segment A sensitive rounds (`adjustBankerCount`).
// The follow-the-red-zero pass itself is `SignalCards.AnalyzeSignals` with
// the rule `RedZeros`.

module RedZero {
  import opened Base
  import opened Cards
  import opened Pool
  import opened JsSegments
  import opened SignalCards

  // ---- arrange_as_s_rounds ----

  /** A sensitive round as laid out: segment A, and a Banker win relabelled a Player win. */
  function Arranged(r: Round): Round
  {
    if r.result == Won(Banker) then r.(segment := SegA, result := Won(Player), swapped := true)
    else r.(segment := SegA)
  }

  /**
    * The placeholder round put after it: no cards, a Banker win, segment A,
    * labelled where the round ends (undefined when its start is).
    */
  function Filler(r: Round): Round
  {
    Round(if r.start.At? then At(r.start.index + |r.cards|) else Undefined, [], Won(Banker), false, SegA, false, false)
  }

  /**
    * `arrange_as_s_rounds`: sort by start index, then each round as laid out,
    * followed by a placeholder Banker round except after the last one.
    */
  method ArrangeAsSRounds(rs: seq<Round>) returns (out: seq<Round>)
    ensures |rs| == 0 ==> out == []
    ensures |rs| > 0 ==> |out| == 2 * |rs| - 1
    ensures forall k :: 0 <= k < |rs| ==> out[2 * k] == Arranged(SortByStart(rs)[k])
    ensures forall k :: 0 <= k < |rs| - 1 ==> out[2 * k + 1] == Filler(SortByStart(rs)[k])
    ensures forall k :: 0 <= k < |rs| ==>
              out[2 * k].result != Won(Banker) && out[2 * k].segment == SegA
              && out[2 * k].cards == SortByStart(rs)[k].cards
    ensures forall k :: 0 <= k < |rs| - 1 ==> out[2 * k + 1].cards == [] && out[2 * k + 1].result == Won(Banker)
  {
    var sorted := SortByStart(rs);
    out := [];
    var n := |sorted|;
    for i := 0 to n
      invariant |out| == if i == n && i > 0 then 2 * i - 1 else 2 * i
      invariant forall k :: 0 <= k < i ==> out[2 * k] == Arranged(sorted[k])
      invariant forall k :: 0 <= k < i && k < n - 1 ==> out[2 * k + 1] == Filler(sorted[k])
    {
      var round := Arranged(sorted[i]);
      out := out + [round];
      if i < n - 1 {
        out := out + [Filler(sorted[i])];
      }
    }
    forall k | 0 <= k < |rs| - 1
      ensures out[2 * k + 1].cards == [] && out[2 * k + 1].result == Won(Banker)
    {
      assert out[2 * k + 1] == Filler(sorted[k]);
    }
  }

  /**
    * The layout makes each laid-out round but the last an S round and no
    * placeholder one: the S indices of segment A are exactly the even
    * indices below the last.
    */
  lemma ArrangedSIdx(rs: seq<Round>, out: seq<Round>)
    requires |rs| > 0 && |out| == 2 * |rs| - 1
    requires forall k :: 0 <= k < |rs| ==> out[2 * k] == Arranged(SortByStart(rs)[k])
    requires forall k :: 0 <= k < |rs| - 1 ==> out[2 * k + 1] == Filler(SortByStart(rs)[k])
    ensures forall k: nat :: k < |rs| - 1 ==> 2 * k in SIdxForSegment(out, SegA)
    ensures forall k: nat :: 2 * k + 1 !in SIdxForSegment(out, SegA)
    ensures |out| - 1 !in SIdxForSegment(out, SegA)
  {
    var sorted := SortByStart(rs);
    LaidOutBeforeBanker(sorted, out);
  }

  lemma LaidOutBeforeBanker(sorted: seq<Round>, out: seq<Round>)
    requires |sorted| > 0 && |out| == 2 * |sorted| - 1
    requires forall k :: 0 <= k < |sorted| ==> out[2 * k] == Arranged(sorted[k])
    requires forall k :: 0 <= k < |sorted| - 1 ==> out[2 * k + 1] == Filler(sorted[k])
    ensures forall k: nat :: k < |sorted| - 1 ==> BeforeBanker(out, SegA, 2 * k)
    ensures forall k: nat :: !BeforeBanker(out, SegA, 2 * k + 1)
  {
    forall k: nat | k < |sorted| - 1
      ensures BeforeBanker(out, SegA, 2 * k)
    {
      assert out[2 * k] == Arranged(sorted[k]);
      assert out[2 * k + 1] == Filler(sorted[k]);
    }
    forall k: nat
      ensures !BeforeBanker(out, SegA, 2 * k + 1)
    {
      if k + 1 < |sorted| {
        assert out[2 * (k + 1)] == Arranged(sorted[k + 1]);
      }
    }
  }

  // ---- adjustBankerCount ----

  /** `direction`: 'increase', 'decrease', or any other text, which changes nothing. */
  datatype Direction = Increase | Decrease | OtherDirection

  /** A round the adjustment would change: segment A, sensitive, two cards or more, and a swap that helps. */
  predicate Eligible(r: Round, dir: Direction)
  {
    |r.cards| >= 2 && r.segment == SegA && r.sensitive
    && var s := SwapFirstTwoCards(r.cards);
       match dir
       case Increase => r.result != Won(Banker) && s == Some(Banker)
       case Decrease => r.result == Won(Banker) && s != Some(Banker) && s != Some(Tie)
       case OtherDirection => false
  }

  /** How many of the first `n` rounds are eligible. */
  function Eligibles(rs: seq<Round>, dir: Direction, n: nat): (e: nat)
    requires n <= |rs|
    ensures e <= n
  {
    if n == 0 then 0 else Eligibles(rs, dir, n - 1) + (if Eligible(rs[n - 1], dir) then 1 else 0)
  }

  lemma {:induction false} EligiblesMonotone(rs: seq<Round>, dir: Direction, i: nat, n: nat)
    requires i <= n <= |rs|
    ensures Eligibles(rs, dir, i) <= Eligibles(rs, dir, n)
    decreases n - i
  {
    if i < n {
      EligiblesMonotone(rs, dir, i, n - 1);
    }
  }

  /** The round at `k` after the adjustment: swapped when eligible and fewer than `count` came before. */
  function AdjustedAt(rs: seq<Round>, dir: Direction, count: nat, k: nat): Round
    requires k < |rs|
  {
    if Eligible(rs[k], dir) && Eligibles(rs, dir, k) < count then ApplySwap(rs[k]) else rs[k]
  }

  function Min(a: nat, b: nat): nat
  {
    if a <= b then a else b
  }

  /** One round in the source's branch order. */
  method AdjustOne(r: Round, dir: Direction) returns (r': Round, fired: bool)
    ensures fired <==> Eligible(r, dir)
    ensures r' == if fired then ApplySwap(r) else r
  {
    r', fired := r, false;
    if |r.cards| < 2 || r.segment != SegA || !r.sensitive {
      return;
    }
    if dir == Increase && r.result != Won(Banker) {
      var swappedResult := SwapFirstTwoCards(r.cards);
      if swappedResult == Some(Banker) {
        r', fired := ApplySwap(r), true;
      }
    } else if dir == Decrease && r.result == Won(Banker) {
      var swappedResult := SwapFirstTwoCards(r.cards);
      if swappedResult != Some(Banker) && swappedResult != Some(Tie) {
        r', fired := ApplySwap(r), true;
      }
    }
  }

  /** After `i` rounds: those before `i` are adjusted, the others as before. */
  predicate AdjustState(before: seq<Round>, cur: seq<Round>, dir: Direction, count: nat, i: nat)
  {
    i <= |before| == |cur|
    && (forall k :: 0 <= k < i ==> cur[k] == AdjustedAt(before, dir, count, k))
    && (forall k :: i <= k < |before| ==> cur[k] == before[k])
  }

  lemma AdjustStep(before: seq<Round>, cur: seq<Round>, dir: Direction, count: nat, i: nat,
                   adjusted: nat, r: Round, fired: bool)
    requires AdjustState(before, cur, dir, count, i) && i < |before|
    requires adjusted == Eligibles(before, dir, i) && adjusted < count
    requires adjusted == Changed(before, cur, i)
    requires fired <==> Eligible(cur[i], dir)
    requires r == if fired then ApplySwap(cur[i]) else cur[i]
    ensures AdjustState(before, cur[i := r], dir, count, i + 1)
    ensures adjusted + (if fired then 1 else 0) == Eligibles(before, dir, i + 1)
    ensures adjusted + (if fired then 1 else 0) == Changed(before, cur[i := r], i + 1)
  {
    var after := cur[i := r];
    assert cur[i] == before[i];
    ChangedFrame(before, cur, after, i);
    if fired {
      ApplySwapChanges(before[i]);
    }
  }

  /** The swap of an eligible round changes its result. */
  lemma ApplySwapChanges(r: Round)
    requires r.result == Won(Banker) <==> SwapFirstTwoCards(r.cards) != Some(Banker)
    ensures ApplySwap(r) != r
  {
    assert ApplySwap(r).result != r.result;
  }

  lemma {:induction false} ChangedTail(a: seq<Round>, b: seq<Round>, i: nat, n: nat)
    requires i <= n <= |a| && n <= |b|
    requires forall k :: i <= k < n ==> a[k] == b[k]
    ensures Changed(a, b, n) == Changed(a, b, i)
  {
    if n > i {
      ChangedTail(a, b, i, n - 1);
    }
  }

  lemma AdjustDone(before: seq<Round>, cur: seq<Round>, dir: Direction, count: nat, i: nat, adjusted: nat)
    requires AdjustState(before, cur, dir, count, i)
    requires adjusted == Eligibles(before, dir, i) && adjusted <= count
    requires adjusted == Changed(before, cur, i)
    requires i == |before| || adjusted == count
    ensures adjusted == Min(count, Eligibles(before, dir, |before|))
    ensures forall k :: 0 <= k < |before| ==> cur[k] == AdjustedAt(before, dir, count, k)
    ensures adjusted == Changed(before, cur, |before|)
  {
    EligiblesMonotone(before, dir, i, |before|);
    forall k | i <= k < |before|
      ensures cur[k] == AdjustedAt(before, dir, count, k)
    {
      EligiblesMonotone(before, dir, i, k);
    }
    ChangedTail(before, cur, i, |before|);
  }

  /**
    * `adjustBankerCount`: walk the rounds until `count` of them are changed;
    * a segment A sensitive round of at least two cards is swapped when the
    * swap turns a non-Banker result into Banker ('increase') or a Banker
    * result into neither Banker nor a tie ('decrease'). Exactly the first
    * `count` eligible rounds change, and the count returned is the number of
    * rounds changed.
    */
  method AdjustBankerCount(rounds: array<Round>, count: nat, dir: Direction) returns (adjusted: nat)
    modifies rounds
    ensures adjusted == Min(count, Eligibles(old(rounds[..]), dir, rounds.Length))
    ensures forall k :: 0 <= k < rounds.Length ==> rounds[k] == AdjustedAt(old(rounds[..]), dir, count, k)
    ensures adjusted == Changed(old(rounds[..]), rounds[..], rounds.Length)
  {
    ghost var before := rounds[..];
    adjusted := 0;
    var i := 0;
    while i < rounds.Length && adjusted < count
      invariant AdjustState(before, rounds[..], dir, count, i)
      invariant adjusted == Eligibles(before, dir, i) && adjusted <= count
      invariant adjusted == Changed(before, rounds[..], i)
      decreases rounds.Length - i
    {
      ghost var cur := rounds[..];
      var r, fired := AdjustOne(rounds[i], dir);
      AdjustStep(before, cur, dir, count, i, adjusted, r, fired);
      rounds[i] := r;
      assert rounds[..] == cur[i := r];
      if fired {
        adjusted := adjusted + 1;
      }
      i := i + 1;
    }
    AdjustDone(before, rounds[..], dir, count, i, adjusted);
  }
}

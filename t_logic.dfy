// signals_ui.js `applyTSignalLogic` and `recycleRemovedRounds`: before the T
// signal is laid out, segment A loses its two-pairs ties and then, from the
// end, the ties that outnumber the two-pairs rounds; the cards of the rounds
// taken out are reshuffled with the residue into new non-tie rounds, and what
// is left becomes the residue round, sorted by position.

module TSignalLogic {
  import opened Base
  import opened Cards
  import opened Shuffle
  import opened Scan
  import opened Pool
  import opened WaaPack
  import opened JsPack
  import opened SignalCards
  import opened TSignal
  import opened TBalance

  // ---- facts about bags of cards and rounds ----

  lemma {:induction false} DistinctCountOne(deck: seq<Card>, x: Card)
    requires DistinctPositions(deck)
    ensures multiset(deck)[x] <= 1
  {
    if |deck| > 0 {
      DistinctUncons(deck);
      DistinctCountOne(deck[1..], x);
      assert deck == [deck[0]] + deck[1..];
      if deck[0] == x {
        assert x !in deck[1..];
      }
    }
  }

  /** Cards drawn from a deck of distinct positions have distinct positions. */
  lemma SubBagDistinct(s: seq<Card>, deck: seq<Card>)
    requires DistinctPositions(deck) && multiset(s) <= multiset(deck)
    ensures DistinctPositions(s)
  {
    forall i, j | 0 <= i < j < |s|
      ensures s[i].pos != s[j].pos
    {
      if s[i] == s[j] {
        assert s == s[..j] + s[j..];
        assert s[i] in s[..j] && s[j] in s[j..];
        assert multiset(s)[s[i]] == multiset(s[..j])[s[i]] + multiset(s[j..])[s[i]];
        DistinctCountOne(deck, s[i]);
      } else {
        assert s[i] in multiset(deck) && s[j] in multiset(deck);
        var p :| 0 <= p < |deck| && deck[p] == s[i];
        var q :| 0 <= q < |deck| && deck[q] == s[j];
        assert p != q;
      }
    }
  }

  /** Rounds that are permutations of each other hold the same cards. */
  lemma {:induction false} FlattenPermutation(a: seq<Round>, b: seq<Round>)
    requires multiset(a) == multiset(b)
    ensures multiset(Flatten(a)) == multiset(Flatten(b))
    decreases |a|
  {
    if |a| > 0 {
      var x := a[0];
      assert x in multiset(b);
      var j :| 0 <= j < |b| && b[j] == x;
      var rest := FlattenRemove(b, j);
      var tl := FlattenRemove(a, 0);
      assert tl == a[1..] by {
        assert a[..0] == [];
      }
      assert multiset(tl) == multiset(rest);
      FlattenPermutation(tl, rest);
    }
  }

  /** Taking round `j` out of a list: the rest holds the other rounds and the other cards. */
  lemma FlattenRemove(b: seq<Round>, j: nat) returns (rest: seq<Round>)
    requires j < |b|
    ensures rest == b[..j] + b[j + 1..]
    ensures multiset(rest) == multiset(b) - multiset{b[j]}
    ensures multiset(Flatten(b)) == multiset(b[j].cards) + multiset(Flatten(rest))
  {
    var x := b[j];
    rest := b[..j] + b[j + 1..];
    assert b == b[..j] + ([x] + b[j + 1..]);
    FlattenConcat(b[..j], [x] + b[j + 1..]);
    FlattenCons(x, b[j + 1..]);
    FlattenConcat(b[..j], b[j + 1..]);
  }

  lemma {:induction false} FlattenClearT(a: seq<Round>)
    ensures Flatten(ClearT(a)) == Flatten(a)
  {
    if |a| > 0 {
      assert ClearT(a)[1..] == ClearT(a[1..]);
      FlattenClearT(a[1..]);
    }
  }

  lemma {:induction false} FlattenPositions(rs: seq<Round>)
    ensures Positions(Flatten(rs)) == RoundPositions(rs)
  {
    if |rs| > 0 {
      FlattenPositions(rs[1..]);
      assert rs == [rs[0]] + rs[1..];
      RoundPositionsPrepend(rs[0], rs[1..]);
      var f := Flatten(rs);
      assert f == rs[0].cards + Flatten(rs[1..]);
      assert forall c :: c in f <==> c in rs[0].cards || c in Flatten(rs[1..]);
    }
  }

  // ---- the position filter of recycleRemovedRounds ----

  /**
    * The `filter` of `recycleRemovedRounds`: each position once (its first
    * card), and no card at an excluded position.
    */
  function FreshCards(cs: seq<Card>, excluded: set<int>): (r: seq<Card>)
    ensures DistinctPositions(r)
    ensures forall c :: c in r ==> c in cs && c.pos !in excluded
    ensures forall c :: c in cs && c.pos !in excluded ==> c.pos in Positions(r)
    decreases |cs|
  {
    if |cs| == 0 then []
    else if cs[0].pos in excluded then
      assert forall c :: c in cs ==> c == cs[0] || c in cs[1..];
      FreshCards(cs[1..], excluded)
    else
      var rest := FreshCards(cs[1..], excluded + {cs[0].pos});
      assert forall c :: c in cs ==> c == cs[0] || c in cs[1..];
      assert forall i :: 0 <= i < |rest| ==> rest[i] in rest;
      assert forall i :: 0 < i < |[cs[0]] + rest| ==> ([cs[0]] + rest)[i] == rest[i - 1];
      [cs[0]] + rest
  }

  /** Cards of distinct positions, none excluded, pass the filter unchanged. */
  lemma {:induction false} FreshIdentity(cs: seq<Card>, excluded: set<int>)
    requires DistinctPositions(cs)
    requires forall c :: c in cs ==> c.pos !in excluded
    ensures FreshCards(cs, excluded) == cs
  {
    if |cs| > 0 {
      DistinctUncons(cs);
      FreshIdentity(cs[1..], excluded + {cs[0].pos});
    }
  }

  lemma FreshStep(cs: seq<Card>, k: nat, excluded: set<int>)
    requires k < |cs|
    ensures FreshCards(cs[k..], excluded)
            == if cs[k].pos in excluded then FreshCards(cs[k + 1..], excluded)
               else [cs[k]] + FreshCards(cs[k + 1..], excluded + {cs[k].pos})
  {
    assert cs[k..][0] == cs[k] && cs[k..][1..] == cs[k + 1..];
  }

  /** The filter as the source runs it, with a `seenPos` set. */
  method DedupByPos(cs: seq<Card>, used: set<int>) returns (pool: seq<Card>)
    ensures pool == FreshCards(cs, used)
  {
    pool := [];
    var seen: set<int> := {};
    DedupStart(cs, used);
    for k := 0 to |cs|
      invariant Deduped(cs, used, pool, seen, k)
    {
      var card := cs[k];
      if card.pos !in used && card.pos !in seen {
        DedupTake(cs, used, pool, seen, k);
        seen := seen + {card.pos};
        pool := pool + [card];
      } else {
        DedupSkip(cs, used, pool, seen, k);
      }
    }
    DedupDone(cs, used, pool, seen);
  }

  /** After `k` cards the source's list, then the filter of the rest, is the whole filter. */
  predicate Deduped(cs: seq<Card>, used: set<int>, pool: seq<Card>, seen: set<int>, k: nat)
  {
    k <= |cs| && FreshCards(cs, used) == pool + FreshCards(cs[k..], used + seen)
  }

  lemma DedupStart(cs: seq<Card>, used: set<int>)
    ensures Deduped(cs, used, [], {}, 0)
  {
    assert used + {} == used && cs[0..] == cs;
  }

  lemma DedupTake(cs: seq<Card>, used: set<int>, pool: seq<Card>, seen: set<int>, k: nat)
    requires Deduped(cs, used, pool, seen, k) && k < |cs|
    requires cs[k].pos !in used && cs[k].pos !in seen
    ensures Deduped(cs, used, pool + [cs[k]], seen + {cs[k].pos}, k + 1)
  {
    var rest := FreshCards(cs[k + 1..], used + seen + {cs[k].pos});
    FreshStep(cs, k, used + seen);
    assert used + seen + {cs[k].pos} == used + (seen + {cs[k].pos});
    AppendStep(pool, cs[k], rest, FreshCards(cs[k..], used + seen), FreshCards(cs, used));
  }

  lemma DedupSkip(cs: seq<Card>, used: set<int>, pool: seq<Card>, seen: set<int>, k: nat)
    requires Deduped(cs, used, pool, seen, k) && k < |cs|
    requires cs[k].pos in used || cs[k].pos in seen
    ensures Deduped(cs, used, pool, seen, k + 1)
  {
    FreshStep(cs, k, used + seen);
  }

  lemma DedupDone(cs: seq<Card>, used: set<int>, pool: seq<Card>, seen: set<int>)
    requires Deduped(cs, used, pool, seen, |cs|)
    ensures pool == FreshCards(cs, used)
  {
    assert cs[|cs|..] == [];
    assert pool + [] == pool;
  }

  lemma {:induction false} UnusedIgnoresSet(s: seq<Card>, a: set<int>, b: set<int>)
    requires forall c :: c in s ==> c.pos !in a
    ensures Unused(s, a + b) == Unused(s, b)
  {
    if |s| > 0 {
      UnusedIgnoresSet(s[1..], a, b);
    }
  }

  lemma {:induction false} UnusedTwice(s: seq<Card>, u: set<int>, v: set<int>)
    ensures Unused(Unused(s, u), u + v) == Unused(s, u + v)
  {
    if |s| > 0 {
      UnusedTwice(s[1..], u, v);
      UnusedAppend(if s[0].pos in u then [] else [s[0]], Unused(s[1..], u), u + v);
    }
  }

  // ---- the residue round ----

  predicate Ascending(cs: seq<Card>)
  {
    |cs| <= 1 || (cs[0].pos <= cs[1].pos && Ascending(cs[1..]))
  }

  function InsertByPos(c: Card, cs: seq<Card>): (r: seq<Card>)
    ensures |r| == |cs| + 1
    ensures multiset(r) == multiset(cs) + multiset{c}
    ensures r[0] == c || (|cs| > 0 && r[0] == cs[0])
    ensures Ascending(cs) ==> Ascending(r)
  {
    if |cs| == 0 || c.pos <= cs[0].pos then [c] + cs
    else
      var rest := InsertByPos(c, cs[1..]);
      assert cs == [cs[0]] + cs[1..];
      assert ([cs[0]] + rest)[1..] == rest;
      [cs[0]] + rest
  }

  /** `slice().sort((a, b) => a.pos - b.pos)`. */
  function SortByPos(cs: seq<Card>): (r: seq<Card>)
    ensures |r| == |cs|
    ensures multiset(r) == multiset(cs)
    ensures Ascending(r)
  {
    if |cs| == 0 then []
    else
      assert cs == [cs[0]] + cs[1..];
      InsertByPos(cs[0], SortByPos(cs[1..]))
  }

  lemma {:induction false} AscendingFirst(cs: seq<Card>)
    requires Ascending(cs) && |cs| > 0
    ensures forall c :: c in cs ==> cs[0].pos <= c.pos
  {
    if |cs| > 1 {
      AscendingFirst(cs[1..]);
      assert forall c :: c in cs ==> c == cs[0] || c in cs[1..];
    }
  }

  /** The residue round of `applyTSignalLogic`: the cards sorted by position, labelled with the first. */
  function TailRound(cs: seq<Card>): (r: Round)
    requires |cs| > 0
    ensures multiset(r.cards) == multiset(cs) && Ascending(r.cards)
    ensures r.start.At? && r.start.index in Positions(cs) && forall c :: c in cs ==> r.start.index <= c.pos
    ensures r.result == Residue && r.segment == SegC && !r.sensitive && !r.isT
  {
    var sorted := SortByPos(cs);
    AscendingFirst(sorted);
    assert sorted[0] in multiset(cs);
    assert forall c :: c in cs ==> c in multiset(sorted);
    Round(At(sorted[0].pos), sorted, Residue, false, SegC, false, false)
  }

  function TailRounds(cs: seq<Card>): (rs: seq<Round>)
    ensures multiset(Flatten(rs)) == multiset(cs)
    ensures |rs| <= 1
    ensures forall k :: 0 <= k < |rs| ==> rs[k].segment == SegC
  {
    if |cs| > 0 then
      assert Flatten([TailRound(cs)]) == TailRound(cs).cards + Flatten([]);
      [TailRound(cs)]
    else []
  }

  // ---- recycleRemovedRounds ----

  /** `MULTI_PASS_MIN_CARDS` of the signals files. */
  const SIGNALS_MIN_CARDS: nat := 6

  /** The literal pool size below which `recycleRemovedRounds` returns at once. */
  const RECYCLE_MIN_POOL: nat := 4

  const MAX_RECYCLE_ATTEMPTS: nat := 200

  predicate NoTies(rs: seq<Round>)
  {
    forall k :: 0 <= k < |rs| ==> !IsTieLabel(rs[k].result)
  }

  /** The cards to reshuffle: the removed rounds' cards, then the tail, filtered by position. */
  function RecyclePool(removed: seq<Round>, tail: seq<Card>, used: set<int>): seq<Card>
  {
    FreshCards(Flatten(removed) + tail, used)
  }

  /**
    * The outcome of `recycleRemovedRounds` on the pool: the rounds added are
    * disjoint reshuffled non-tie rounds marked A, the leftover is the pool
    * without their positions, together they are the pool, and the used set
    * grows by their positions.
    */
  predicate Recycled(pool: seq<Card>, used0: set<int>, added: seq<Round>, leftover: seq<Card>, used: set<int>)
  {
    MarkedCandidates(SIGNALS_VARIANT, added) && NoTies(added)
    && RecycledCards(pool, used0, added, leftover, used)
  }

  predicate RecycledCards(pool: seq<Card>, used0: set<int>, added: seq<Round>, leftover: seq<Card>, used: set<int>)
  {
    Ledger(pool, added, RoundPositions(added))
    && leftover == Unused(pool, RoundPositions(added))
    && multiset(Flatten(added)) + multiset(leftover) == multiset(pool)
    && used == used0 + RoundPositions(added)
  }

  lemma NoTiesAppend(rs: seq<Round>, r: Round)
    requires NoTies(rs) && !IsTieLabel(r.result)
    ensures NoTies(rs + [r])
  {
    assert forall k :: 0 <= k < |rs| ==> (rs + [r])[k] == rs[k];
  }

  /** One taken round keeps the recycling ledger and shrinks the leftover. */
  lemma RecycleStep(pool: seq<Card>, used0: set<int>, added: seq<Round>, leftover: seq<Card>, used: set<int>, r: Round)
    requires Recycled(pool, used0, added, leftover, used) && DistinctPositions(pool)
    requires forall c :: c in pool ==> c.pos !in used0
    requires CandidateRound(SIGNALS_VARIANT, r) && |r.cards| >= 4 && !IsTieLabel(r.result)
    requires multiset(r.cards) <= multiset(Unused(pool, used))
    requires forall c :: c in r.cards ==> c.pos !in used
    ensures Recycled(pool, used0, added + [ToSegmentA(r)], Unused(leftover, used + Positions(r.cards)),
                     used + Positions(r.cards))
    ensures |Unused(leftover, used + Positions(r.cards))| < |leftover|
  {
    MarkedCandidatesAppend(SIGNALS_VARIANT, added, r);
    NoTiesAppend(added, ToSegmentA(r));
    RecycleCardsStep(pool, used0, added, leftover, used, r);
  }

  lemma RecycleCardsStep(pool: seq<Card>, used0: set<int>, added: seq<Round>, leftover: seq<Card>, used: set<int>, r: Round)
    requires RecycledCards(pool, used0, added, leftover, used) && DistinctPositions(pool)
    requires forall c :: c in pool ==> c.pos !in used0
    requires |r.cards| >= 4
    requires multiset(r.cards) <= multiset(Unused(pool, used))
    requires forall c :: c in r.cards ==> c.pos !in used
    ensures RecycledCards(pool, used0, added + [ToSegmentA(r)], Unused(leftover, used + Positions(r.cards)),
                          used + Positions(r.cards))
    ensures |Unused(leftover, used + Positions(r.cards))| < |leftover|
  {
    var u := RoundPositions(added);
    var added' := added + [ToSegmentA(r)];
    var p := Positions(r.cards);
    var u' := RoundPositions(added');
    assert Ledger(pool, added', u') && u' == u + p && |Unused(pool, u + p)| < |Unused(pool, u)| by {
      RecycleLedgerStep(pool, used0, added, used, r);
    }
    assert Unused(leftover, used + p) == Unused(pool, u') by {
      RecycleLeftoverStep(pool, used0, u, p);
    }
    assert used + p == used0 + u' by {
      assert used == used0 + u;
    }
    LedgerRecycled(pool, used0, added', used + p);
  }

  lemma LedgerRecycled(pool: seq<Card>, used0: set<int>, added: seq<Round>, used: set<int>)
    requires Ledger(pool, added, RoundPositions(added)) && DistinctPositions(pool)
    requires used == used0 + RoundPositions(added)
    ensures RecycledCards(pool, used0, added, Unused(pool, RoundPositions(added)), used)
  {
  }

  lemma RecycleLedgerStep(pool: seq<Card>, used0: set<int>, added: seq<Round>, used: set<int>, r: Round)
    requires Ledger(pool, added, RoundPositions(added)) && used == used0 + RoundPositions(added)
    requires forall c :: c in pool ==> c.pos !in used0
    requires |r.cards| >= 4
    requires multiset(r.cards) <= multiset(Unused(pool, used))
    requires forall c :: c in r.cards ==> c.pos !in used
    ensures Ledger(pool, added + [ToSegmentA(r)], RoundPositions(added + [ToSegmentA(r)]))
    ensures RoundPositions(added + [ToSegmentA(r)]) == RoundPositions(added) + Positions(r.cards)
    ensures |Unused(pool, RoundPositions(added) + Positions(r.cards))| < |Unused(pool, RoundPositions(added))|
  {
    var u := RoundPositions(added);
    var r' := ToSegmentA(r);
    var added' := added + [r'];
    assert multiset(r'.cards) <= multiset(Unused(pool, u)) by {
      UnusedIgnoresSet(pool, used0, u);
    }
    assert Ledger(pool, [] + added, u) by {
      assert [] + added == added;
    }
    ReinforceStep(pool, [], added, u, r');
    assert [] + added' == added';
    RoundPositionsAppend(added, r');
  }

  /** `poolCards.filter(...)` after a round is taken is the pool without the added positions. */
  lemma RecycleLeftoverStep(pool: seq<Card>, used0: set<int>, u: set<int>, p: set<int>)
    requires forall c :: c in pool ==> c.pos !in used0
    ensures Unused(Unused(pool, u), used0 + u + p) == Unused(pool, u + p)
  {
    UnusedTwice(pool, u, used0 + p);
    assert u + (used0 + p) == used0 + (u + p);
    assert used0 + u + p == used0 + (u + p);
    UnusedIgnoresSet(pool, used0, u + p);
  }

  /**
    * `recycleRemovedRounds`: filter the removed rounds' cards and the tail to
    * fresh positions; unless fewer than four remain, reshuffle the leftover
    * with the draws `rng(k)` while it holds six cards or more, taking the
    * first non-tie round that fits each time. A reshuffle that finds nothing
    * is an idle attempt, a round taken resets the count, and the 200th idle
    * attempt in a row ends the loop.
    */
  method RecycleRemovedRounds(removed: seq<Round>, tail: seq<Card>, used0: set<int>, rng: nat -> (nat -> nat))
    returns (added: seq<Round>, leftover: seq<Card>, used: set<int>, idleAttempts: nat)
    requires ValidDraws(rng)
    ensures Recycled(RecyclePool(removed, tail, used0), used0, added, leftover, used)
    ensures |RecyclePool(removed, tail, used0)| < RECYCLE_MIN_POOL
            ==> added == [] && leftover == RecyclePool(removed, tail, used0) && used == used0
    ensures |RecyclePool(removed, tail, used0)| >= RECYCLE_MIN_POOL
            ==> |leftover| < SIGNALS_MIN_CARDS || idleAttempts == MAX_RECYCLE_ATTEMPTS
  {
    var pool := DedupByPos(Flatten(removed) + tail, used0);
    added, leftover, used, idleAttempts := [], pool, used0, 0;
    EmptyLedger(pool);
    UnusedOfNothing(pool);
    assert used0 + RoundPositions(added) == used0;
    if |pool| < RECYCLE_MIN_POOL {
      return;
    }
    UnusedOfFresh(pool, used0);
    var k: nat := 0;
    while |leftover| >= SIGNALS_MIN_CARDS && idleAttempts < MAX_RECYCLE_ATTEMPTS
      invariant Recycled(pool, used0, added, leftover, used)
      invariant idleAttempts <= MAX_RECYCLE_ATTEMPTS
      invariant leftover == Unused(pool, used)
      invariant DistinctPositions(pool) && forall c :: c in pool ==> c.pos !in used0
      decreases |leftover|, MAX_RECYCLE_ATTEMPTS - idleAttempts
    {
      idleAttempts := idleAttempts + 1;
      var picked := PickUnused(pool, used, SIGNALS_VARIANT, true, rng(k));
      k := k + 1;
      if picked.None? {
        continue;
      }
      var r := picked.value;
      RecycleStep(pool, used0, added, leftover, used, r);
      added := added + [ToSegmentA(r)];
      used := used + Positions(r.cards);
      leftover := Unused(leftover, used);
      idleAttempts := 0;
      UnusedIgnoresSet(pool, used0, RoundPositions(added));
    }
  }

  // ---- applyTSignalLogic ----

  /**
    * The last step of `applyTSignalLogic`: the rounds as they are when the
    * two-pairs and tie counts differ, else the T signal pass (segment C
    * moved to the end, ties moved behind two-pairs rounds, T marks set).
    */
  function TLogicOut(rs: seq<Round>): seq<Round>
  {
    if |IndicesOf(rs, TwoPairsKind)| != |IndicesOf(rs, TieKind)| then rs else TSignalPass(rs)
  }

  /**
    * What `applyTSignalLogic` leaves behind, given the segment A rounds
    * `aRounds`, the used set and the tail: the new segment A is the rounds
    * phases 1 and 2 keep (T marks cleared) followed by the rounds recycled
    * from the removed rounds' cards and the tail; the used set loses the
    * removed positions and gains the recycled ones; the leftover becomes the
    * residue round; and the result is the last step on all of them.
    */
  predicate TLogicResult(aRounds: seq<Round>, used: set<int>, tail: seq<Card>,
                         out: seq<Round>, aAfter: seq<Round>, usedOut: set<int>, leftover: seq<Card>)
  {
    TLogicParts(Phases(ClearT(aRounds)).0, Phases(ClearT(aRounds)).1, used, tail, out, aAfter, usedOut, leftover)
  }

  /** The same, for the rounds `kept` and `removed` that phases 1 and 2 leave. */
  predicate TLogicParts(kept: seq<Round>, removed: seq<Round>, used: set<int>, tail: seq<Card>,
                        out: seq<Round>, aAfter: seq<Round>, usedOut: set<int>, leftover: seq<Card>)
  {
    var used1 := used - RoundPositions(removed);
    |kept| <= |aAfter| && aAfter[..|kept|] == kept
    && Recycled(RecyclePool(removed, tail, used1), used1, aAfter[|kept|..], leftover, usedOut)
    && out == TLogicOut(aAfter + TailRounds(leftover))
  }

  /**
    * `applyTSignalLogic` on the arrays and the set the packer hands it.
    * Returns the rounds, with the new segment A rounds, the used set and the
    * leftover cards that the source leaves in `a_rounds`, `used_pos` and the
    * residue round.
    */
  method ApplyTSignalLogic(aRounds: seq<Round>, used: set<int>, tail: seq<Card>, rng: nat -> (nat -> nat))
    returns (out: seq<Round>, aAfter: seq<Round>, usedOut: set<int>, leftover: seq<Card>)
    requires ValidDraws(rng)
    ensures TLogicResult(aRounds, used, tail, out, aAfter, usedOut, leftover)
  {
    var a := ClearT(aRounds);
    var kept, removed, used1 := BreakTies(a, used);
    assert kept == Phases(ClearT(aRounds)).0 && removed == Phases(ClearT(aRounds)).1;
    var added, idle;
    added, leftover, usedOut, idle := RecycleRemovedRounds(removed, tail, used1, rng);
    aAfter := kept + added;
    assert aAfter[..|kept|] == kept && aAfter[|kept|..] == added;
    var rs := aAfter + TailRounds(leftover);
    var twoPairs, ties := CollectIndices(rs);
    if |twoPairs| != |ties| {
      out := rs;
      return;
    }
    var rounds := RunTSignalPass(rs);
    out := rounds[..];
  }

  /**
    * On a deck without repeated positions, whose segment A rounds keep the
    * packer's ledger and whose tail is the unused cards, the recycling pool
    * is exactly the removed rounds' cards followed by the tail, and kept
    * rounds, removed rounds and tail together are the deck.
    */
  lemma PoolIsRemovedAndTail(deck: seq<Card>, aRounds: seq<Round>, used: set<int>, tail: seq<Card>)
    requires DistinctPositions(deck) && Ledger(deck, aRounds, used) && tail == Unused(deck, used)
    ensures RecyclePool(Phases(ClearT(aRounds)).1, tail, used - RoundPositions(Phases(ClearT(aRounds)).1))
            == Flatten(Phases(ClearT(aRounds)).1) + tail
    ensures multiset(Flatten(Phases(ClearT(aRounds)).0)) + multiset(Flatten(Phases(ClearT(aRounds)).1)) + multiset(tail)
            == multiset(deck)
  {
    var a := ClearT(aRounds);
    var (kept, removed) := Phases(a);
    PhasesBalance(a);
    assert multiset(kept + removed) == multiset(a);
    FlattenPermutation(kept + removed, a);
    FlattenConcat(kept, removed);
    FlattenClearT(aRounds);
    var cs := Flatten(removed) + tail;
    assert multiset(cs) <= multiset(deck);
    SubBagDistinct(cs, deck);
    FlattenPositions(removed);
    forall c | c in cs
      ensures c.pos !in used - RoundPositions(removed)
    {
      if c in Flatten(removed) {
        assert c.pos in Positions(Flatten(removed));
      }
    }
    FreshIdentity(cs, used - RoundPositions(removed));
  }

  /** The last step moves rounds and sets T marks, so it holds the cards it was given. */
  lemma TLogicOutCards(rs: seq<Round>)
    ensures multiset(Flatten(TLogicOut(rs))) == multiset(Flatten(rs))
  {
    if |IndicesOf(rs, TwoPairsKind)| == |IndicesOf(rs, TieKind)| {
      var out := TSignalPass(rs);
      TSignalPassPermutation(rs);
      FlattenPermutation(ClearT(out), ClearT(rs));
      FlattenClearT(out);
      FlattenClearT(rs);
    }
  }

  /**
    * `applyTSignalLogic` loses and duplicates no card: on a deck without
    * repeated positions, with segment A keeping the packer's ledger and the
    * tail the unused cards, the rounds it returns hold exactly the deck.
    */
  lemma TLogicConserves(deck: seq<Card>, aRounds: seq<Round>, used: set<int>, tail: seq<Card>,
                        out: seq<Round>, aAfter: seq<Round>, usedOut: set<int>, leftover: seq<Card>)
    requires DistinctPositions(deck) && Ledger(deck, aRounds, used) && tail == Unused(deck, used)
    requires TLogicResult(aRounds, used, tail, out, aAfter, usedOut, leftover)
    ensures multiset(Flatten(out)) == multiset(deck)
    ensures DistinctPositions(Flatten(out))
  {
    PoolIsRemovedAndTail(deck, aRounds, used, tail);
    PartsConserve(deck, Phases(ClearT(aRounds)).0, Phases(ClearT(aRounds)).1, used, tail, out, aAfter, usedOut, leftover);
  }

  lemma PartsConserve(deck: seq<Card>, kept: seq<Round>, removed: seq<Round>, used: set<int>, tail: seq<Card>,
                      out: seq<Round>, aAfter: seq<Round>, usedOut: set<int>, leftover: seq<Card>)
    requires DistinctPositions(deck)
    requires RecyclePool(removed, tail, used - RoundPositions(removed)) == Flatten(removed) + tail
    requires multiset(Flatten(kept)) + multiset(Flatten(removed)) + multiset(tail) == multiset(deck)
    requires TLogicParts(kept, removed, used, tail, out, aAfter, usedOut, leftover)
    ensures multiset(Flatten(out)) == multiset(deck)
    ensures DistinctPositions(Flatten(out))
  {
    var added := PartsShape(kept, removed, used, tail, out, aAfter, usedOut, leftover);
    RoundsHoldDeck(deck, kept, removed, tail, added, leftover);
    TLogicOutCards(aAfter + TailRounds(leftover));
    SubBagDistinct(Flatten(out), deck);
  }

  /** The pieces of the result the card count needs. */
  lemma PartsShape(kept: seq<Round>, removed: seq<Round>, used: set<int>, tail: seq<Card>,
                   out: seq<Round>, aAfter: seq<Round>, usedOut: set<int>, leftover: seq<Card>)
    returns (added: seq<Round>)
    requires TLogicParts(kept, removed, used, tail, out, aAfter, usedOut, leftover)
    ensures aAfter == kept + added && out == TLogicOut(aAfter + TailRounds(leftover))
    ensures multiset(Flatten(added)) + multiset(leftover)
            == multiset(RecyclePool(removed, tail, used - RoundPositions(removed)))
  {
    added := aAfter[|kept|..];
    var n := |kept|;
    assert aAfter == kept + added by {
      PrefixBag(aAfter, n);
    }
    var used1 := used - RoundPositions(removed);
    assert RecycledCards(RecyclePool(removed, tail, used1), used1, added, leftover, usedOut);
  }

  lemma RoundsHoldDeck(deck: seq<Card>, kept: seq<Round>, removed: seq<Round>, tail: seq<Card>,
                       added: seq<Round>, leftover: seq<Card>)
    requires multiset(Flatten(kept)) + multiset(Flatten(removed)) + multiset(tail) == multiset(deck)
    requires multiset(Flatten(added)) + multiset(leftover) == multiset(Flatten(removed) + tail)
    ensures multiset(Flatten(kept + added + TailRounds(leftover))) == multiset(deck)
  {
    var fk, fa, fl := Flatten(kept), Flatten(added), Flatten(TailRounds(leftover));
    FlattenConcat(kept, added);
    FlattenConcat(kept + added, TailRounds(leftover));
    assert Flatten(kept + added + TailRounds(leftover)) == (fk + fa) + fl;
    assert multiset((fk + fa) + fl) == multiset(fk) + multiset(fa) + multiset(fl);
    assert multiset(Flatten(removed) + tail) == multiset(Flatten(removed)) + multiset(tail);
    BagSwap(multiset(fk), multiset(fa), multiset(fl), multiset(leftover),
            multiset(Flatten(removed)), multiset(tail), multiset(deck));
  }

  lemma BagSwap<T>(k: multiset<T>, a: multiset<T>, l: multiset<T>, left: multiset<T>,
                   r: multiset<T>, t: multiset<T>, d: multiset<T>)
    requires l == left && a + left == r + t && k + r + t == d
    ensures k + a + l == d
  {
    calc {
      k + a + l;
      k + (a + left);
      k + (r + t);
      k + r + t;
    }
  }

  /**
    * The segment A that `applyTSignalLogic` leaves has no two-pairs tie and
    * no more ties than two-pairs rounds: the kept rounds are balanced and
    * the recycled rounds are no ties.
    */
  lemma SegmentABalanced(aRounds: seq<Round>, used: set<int>, tail: seq<Card>,
                         out: seq<Round>, aAfter: seq<Round>, usedOut: set<int>, leftover: seq<Card>)
    requires TLogicResult(aRounds, used, tail, out, aAfter, usedOut, leftover)
    ensures forall i :: 0 <= i < |aAfter| ==> !Hits(TwoPairsTie, aAfter[i])
    ensures CountOf(aAfter, Is(TieKind)) <= CountOf(aAfter, Is(TwoPairsKind))
  {
    var kept, removed := Phases(ClearT(aRounds)).0, Phases(ClearT(aRounds)).1;
    PhasesBalance(ClearT(aRounds));
    var added := AddedNoTies(kept, removed, used, tail, out, aAfter, usedOut, leftover);
    BalancedAppend(kept, added, aAfter);
  }

  /** Rounds without ties appended to balanced rounds leave them balanced. */
  lemma BalancedAppend(kept: seq<Round>, added: seq<Round>, aAfter: seq<Round>)
    requires aAfter == kept + added && NoTies(added)
    requires forall i :: 0 <= i < |kept| ==> !Hits(TwoPairsTie, kept[i])
    requires CountOf(kept, Is(TieKind)) <= CountOf(kept, Is(TwoPairsKind))
    ensures forall i :: 0 <= i < |aAfter| ==> !Hits(TwoPairsTie, aAfter[i])
    ensures CountOf(aAfter, Is(TieKind)) <= CountOf(aAfter, Is(TwoPairsKind))
  {
    CountOfZero(added, Is(TieKind));
    CountOfZero(kept, TwoPairsTie);
    CountOfZero(added, TwoPairsTie);
    CountOfZero(aAfter, TwoPairsTie);
    CountOfConcat(kept, added, TwoPairsTie);
    CountOfConcat(kept, added, Is(TieKind));
    CountOfConcat(kept, added, Is(TwoPairsKind));
  }

  lemma AddedNoTies(kept: seq<Round>, removed: seq<Round>, used: set<int>, tail: seq<Card>,
                    out: seq<Round>, aAfter: seq<Round>, usedOut: set<int>, leftover: seq<Card>)
    returns (added: seq<Round>)
    requires TLogicParts(kept, removed, used, tail, out, aAfter, usedOut, leftover)
    ensures aAfter == kept + added && NoTies(added)
  {
    added := aAfter[|kept|..];
    var n := |kept|;
    assert aAfter == kept + added by {
      PrefixBag(aAfter, n);
    }
  }
}

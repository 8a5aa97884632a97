// The bookkeeping every packer shares: the set of used positions, the cards
// of the shoe not yet in a round, and the ordering of the finished rounds by
// their start index.

module Pool {
  import opened Base
  import opened Cards

  /** `[c for c in deck if c.pos not in used_pos]`. */
  function Unused(deck: seq<Card>, used: set<int>): (r: seq<Card>)
    ensures |r| <= |deck|
    ensures forall c :: c in r <==> c in deck && c.pos !in used
  {
    if |deck| == 0 then []
    else (if deck[0].pos in used then [] else [deck[0]]) + Unused(deck[1..], used)
  }

  lemma {:induction false} UnusedAppend(a: seq<Card>, b: seq<Card>, used: set<int>)
    ensures Unused(a + b, used) == Unused(a, used) + Unused(b, used)
  {
    if |a| == 0 {
      assert a + b == b;
    } else {
      assert (a + b)[0] == a[0] && (a + b)[1..] == a[1..] + b;
      UnusedAppend(a[1..], b, used);
    }
  }

  /** Nothing is filtered out of a run none of whose positions is used. */
  lemma {:induction false} UnusedOfFresh(s: seq<Card>, used: set<int>)
    requires forall c :: c in s ==> c.pos !in used
    ensures Unused(s, used) == s
  {
    if |s| > 0 {
      UnusedOfFresh(s[1..], used);
    }
  }

  lemma UnusedOfNothing(deck: seq<Card>)
    ensures Unused(deck, {}) == deck
  {
    UnusedOfFresh(deck, {});
  }

  /** A slice of the deck whose positions are all unused is part of the unused cards. */
  lemma SliceOfUnused(deck: seq<Card>, i: nat, j: nat, used: set<int>)
    requires i <= j <= |deck|
    requires forall c :: c in deck[i..j] ==> c.pos !in used
    ensures multiset(deck[i..j]) <= multiset(Unused(deck, used))
  {
    assert deck == deck[..i] + deck[i..j] + deck[j..];
    UnusedAppend(deck[..i] + deck[i..j], deck[j..], used);
    UnusedAppend(deck[..i], deck[i..j], used);
    UnusedOfFresh(deck[i..j], used);
  }

  /** Marking one more card of the deck as used strictly shrinks the unused cards. */
  lemma {:induction false} UnusedShrinks(deck: seq<Card>, used: set<int>, more: set<int>, c: Card)
    requires c in deck && c.pos !in used && c.pos in more
    ensures |Unused(deck, used + more)| < |Unused(deck, used)|
  {
    UnusedMonotone(deck[1..], used, more);
    if deck[0] != c {
      UnusedShrinks(deck[1..], used, more, c);
    }
  }

  lemma {:induction false} UnusedMonotone(deck: seq<Card>, used: set<int>, more: set<int>)
    ensures |Unused(deck, used + more)| <= |Unused(deck, used)|
  {
    if |deck| > 0 {
      UnusedMonotone(deck[1..], used, more);
    }
  }

  /** The positions of a bag of cards. */
  function BagPositions(s: multiset<Card>): (ps: set<int>)
    ensures forall c :: c in s ==> c.pos in ps
  {
    set c | c in s :: c.pos
  }

  lemma BagPositionsOfSeq(cs: seq<Card>)
    ensures BagPositions(multiset(cs)) == Positions(cs)
  {
    assert forall c :: c in multiset(cs) <==> c in cs;
  }

  lemma BagPositionsAdd(s: multiset<Card>, c: Card)
    ensures BagPositions(s + multiset{c}) == BagPositions(s) + {c.pos}
  {
  }

  /** Adding the positions of a run of cards far from `p` does not touch a card at `p`. */
  lemma {:induction false} UnusedIgnores(s: seq<Card>, used: set<int>, p: int)
    requires forall c :: c in s ==> c.pos != p
    ensures Unused(s, used + {p}) == Unused(s, used)
  {
    if |s| > 0 {
      UnusedIgnores(s[1..], used, p);
    }
  }

  /** Without repeated positions, no later card shares the first card's position. */
  lemma DistinctUncons(deck: seq<Card>)
    requires |deck| > 0 && DistinctPositions(deck)
    ensures DistinctPositions(deck[1..])
    ensures forall x :: x in deck[1..] ==> x.pos != deck[0].pos
  {
    var rest := deck[1..];
    forall i, j | 0 <= i < j < |rest|
      ensures rest[i].pos != rest[j].pos
    {
      assert rest[i] == deck[i + 1] && rest[j] == deck[j + 1];
    }
    forall x | x in rest
      ensures x.pos != deck[0].pos
    {
      var k :| 0 <= k < |rest| && rest[k] == x;
      assert deck[k + 1] == x;
    }
  }

  /**
    * On a deck without repeated positions, marking the positions of some
    * unused cards as used removes exactly those cards from the unused ones.
    */
  lemma {:induction false} UnusedRemove(deck: seq<Card>, used: set<int>, s: multiset<Card>)
    requires DistinctPositions(deck)
    requires s <= multiset(Unused(deck, used))
    ensures multiset(Unused(deck, used + BagPositions(s))) == multiset(Unused(deck, used)) - s
    decreases |deck|
  {
    if |deck| > 0 {
      var c := deck[0];
      DistinctUncons(deck);
      if c.pos in used {
        assert Unused(deck, used) == Unused(deck[1..], used);
        assert Unused(deck, used + BagPositions(s)) == Unused(deck[1..], used + BagPositions(s));
        UnusedRemove(deck[1..], used, s);
      } else if c in s {
        UnusedRemoveHead(deck, used, s);
      } else {
        UnusedKeepHead(deck, used, s);
      }
    }
  }

  lemma {:induction false} UnusedRemoveHead(deck: seq<Card>, used: set<int>, s: multiset<Card>)
    requires |deck| > 0 && DistinctPositions(deck)
    requires deck[0].pos !in used && deck[0] in s
    requires s <= multiset(Unused(deck, used))
    ensures multiset(Unused(deck, used + BagPositions(s))) == multiset(Unused(deck, used)) - s
    decreases |deck|, 0
  {
    var c := deck[0];
    var s' := s - multiset{c};
    var m := multiset(Unused(deck[1..], used));
    UnusedKeepsHead(deck, used);
    BagMinusHead(c, s, m);
    UnusedDropsHead(deck, used, s);
    DistinctUncons(deck);
    UnusedRemove(deck[1..], used, s');
    BagChain(multiset(Unused(deck, used + BagPositions(s))), multiset(Unused(deck, used)), m, s, s', c);
  }

  /** An unused first card heads the unused cards. */
  lemma UnusedKeepsHead(deck: seq<Card>, used: set<int>)
    requires |deck| > 0 && deck[0].pos !in used
    ensures multiset(Unused(deck, used)) == multiset{deck[0]} + multiset(Unused(deck[1..], used))
  {
    assert Unused(deck, used) == [deck[0]] + Unused(deck[1..], used);
  }

  /** Marking the first card's position used drops it, and leaves the rest as the other positions do. */
  lemma UnusedDropsHead(deck: seq<Card>, used: set<int>, s: multiset<Card>)
    requires |deck| > 0 && DistinctPositions(deck) && deck[0] in s
    ensures Unused(deck, used + BagPositions(s)) == Unused(deck[1..], used + BagPositions(s - multiset{deck[0]}))
  {
    var c := deck[0];
    var s' := s - multiset{c};
    var more := used + BagPositions(s');
    assert s == s' + multiset{c};
    BagPositionsAdd(s', c);
    assert used + BagPositions(s) == more + {c.pos};
    DistinctUncons(deck);
    UnusedIgnores(deck[1..], more, c.pos);
    assert Unused(deck, more + {c.pos}) == Unused(deck[1..], more + {c.pos});
  }

  lemma BagChain<T>(x: multiset<T>, y: multiset<T>, m: multiset<T>, s: multiset<T>, s': multiset<T>, c: T)
    requires y == multiset{c} + m && s' == s - multiset{c} && (multiset{c} + m) - s == m - s'
    requires x == m - s'
    ensures x == y - s
  {
  }

  lemma BagMinusHead<T>(c: T, s: multiset<T>, m: multiset<T>)
    requires c in s && s <= multiset{c} + m
    ensures s - multiset{c} <= m
    ensures s == (s - multiset{c}) + multiset{c}
    ensures (multiset{c} + m) - s == m - (s - multiset{c})
  {
  }

  lemma {:induction false} UnusedKeepHead(deck: seq<Card>, used: set<int>, s: multiset<Card>)
    requires |deck| > 0 && DistinctPositions(deck)
    requires deck[0].pos !in used && deck[0] !in s
    requires s <= multiset(Unused(deck, used))
    ensures multiset(Unused(deck, used + BagPositions(s))) == multiset(Unused(deck, used)) - s
    decreases |deck|, 0
  {
    var c := deck[0];
    var m := multiset(Unused(deck[1..], used));
    UnusedKeepsHead(deck, used);
    HeadOutsideBag(deck, used, s);
    UnusedKeepsHead(deck, used + BagPositions(s));
    BagSkipHead(c, s, m);
    DistinctUncons(deck);
    UnusedRemove(deck[1..], used, s);
  }

  /** A bag of unused cards without the first card holds no card at its position. */
  lemma HeadOutsideBag(deck: seq<Card>, used: set<int>, s: multiset<Card>)
    requires |deck| > 0 && DistinctPositions(deck) && deck[0] !in s
    requires s <= multiset(Unused(deck, used))
    ensures deck[0].pos !in BagPositions(s)
  {
    forall x | x in s
      ensures x.pos != deck[0].pos
    {
      assert x in Unused(deck, used);
      var k :| 0 <= k < |deck| && deck[k] == x;
      assert k != 0;
    }
  }

  lemma BagSkipHead<T>(c: T, s: multiset<T>, m: multiset<T>)
    requires c !in s && s <= multiset{c} + m
    ensures s <= m && (multiset{c} + m) - s == multiset{c} + (m - s)
  {
  }

  /** `for c in r.cards: used_pos.add(c.pos)` over a list of rounds. */
  function RoundPositions(rs: seq<Round>): (ps: set<int>)
    ensures forall i :: 0 <= i < |rs| ==> Positions(rs[i].cards) <= ps
  {
    set i, c | 0 <= i < |rs| && c in rs[i].cards :: c.pos
  }

  lemma RoundPositionsAppend(rs: seq<Round>, r: Round)
    ensures RoundPositions(rs + [r]) == RoundPositions(rs) + Positions(r.cards)
  {
    assert forall i :: 0 <= i < |rs| ==> (rs + [r])[i] == rs[i];
    assert (rs + [r])[|rs|] == r;
  }

  lemma RoundPositionsPrepend(r: Round, rs: seq<Round>)
    ensures RoundPositions([r] + rs) == Positions(r.cards) + RoundPositions(rs)
  {
    assert forall i :: 0 <= i < |rs| ==> ([r] + rs)[i + 1] == rs[i];
    forall p | p in RoundPositions([r] + rs)
      ensures p in Positions(r.cards) + RoundPositions(rs)
    {
      var i, c :| 0 <= i < |[r] + rs| && c in ([r] + rs)[i].cards && c.pos == p;
      if i > 0 {
        assert c in rs[i - 1].cards;
      }
    }
    forall p | p in RoundPositions(rs)
      ensures p in RoundPositions([r] + rs)
    {
      var i, c :| 0 <= i < |rs| && c in rs[i].cards && c.pos == p;
      assert c in ([r] + rs)[i + 1].cards;
    }
    assert ([r] + rs)[0] == r;
  }

  /** Rounds whose cards are pairwise disjoint by position. */
  predicate PairwiseDisjoint(rs: seq<Round>)
  {
    forall i, j :: 0 <= i < j < |rs| ==> Positions(rs[i].cards) !! Positions(rs[j].cards)
  }

  /** A round whose positions avoid those of a disjoint list keeps the list disjoint when appended. */
  lemma DisjointAppend(rs: seq<Round>, r: Round)
    requires PairwiseDisjoint(rs)
    requires Positions(r.cards) !! RoundPositions(rs)
    ensures PairwiseDisjoint(rs + [r])
  {
    forall i, j | 0 <= i < j < |rs + [r]|
      ensures Positions((rs + [r])[i].cards) !! Positions((rs + [r])[j].cards)
    {
      if j < |rs| {
        assert (rs + [r])[i] == rs[i] && (rs + [r])[j] == rs[j];
      }
    }
  }

  lemma DisjointPrepend(r: Round, rs: seq<Round>)
    requires PairwiseDisjoint(rs)
    requires Positions(r.cards) !! RoundPositions(rs)
    ensures PairwiseDisjoint([r] + rs)
  {
    forall i, j | 0 <= i < j < |[r] + rs|
      ensures Positions(([r] + rs)[i].cards) !! Positions(([r] + rs)[j].cards)
    {
      assert ([r] + rs)[j] == rs[j - 1];
      if i > 0 {
        assert ([r] + rs)[i] == rs[i - 1];
      }
    }
  }

  /** The head of a disjoint list avoids every position of the rest. */
  lemma DisjointUncons(rs: seq<Round>)
    requires |rs| > 0 && PairwiseDisjoint(rs)
    ensures PairwiseDisjoint(rs[1..])
    ensures Positions(rs[0].cards) !! RoundPositions(rs[1..])
  {
    assert forall i :: 0 <= i < |rs| - 1 ==> rs[1..][i] == rs[i + 1];
    forall p | p in RoundPositions(rs[1..])
      ensures p !in Positions(rs[0].cards)
    {
      var i, c :| 0 <= i < |rs[1..]| && c in rs[1..][i].cards && c.pos == p;
      assert Positions(rs[0].cards) !! Positions(rs[i + 1].cards);
    }
  }

  // ---- `out_rounds.sort(key=lambda r: r.start_index)` ----

  predicate SortedByStart(rs: seq<Round>)
  {
    forall i, j :: 0 <= i < j < |rs| ==> StartIndex(rs[i]) <= StartIndex(rs[j])
  }

  /** Insert `r` before the first round whose start is not smaller, so ahead of every round with an equal one. */
  function InsertByStart(r: Round, rs: seq<Round>): (out: seq<Round>)
    ensures |out| == |rs| + 1
  {
    if |rs| == 0 || StartIndex(r) <= StartIndex(rs[0]) then [r] + rs
    else [rs[0]] + InsertByStart(r, rs[1..])
  }

  /** A stable sort by start index (Python's `list.sort` is stable). */
  function SortByStart(rs: seq<Round>): (out: seq<Round>)
    ensures |out| == |rs|
  {
    if |rs| == 0 then [] else InsertByStart(rs[0], SortByStart(rs[1..]))
  }

  lemma {:induction false} InsertByStartBag(r: Round, rs: seq<Round>)
    ensures multiset(InsertByStart(r, rs)) == multiset(rs) + multiset{r}
    ensures multiset(Flatten(InsertByStart(r, rs))) == multiset(r.cards) + multiset(Flatten(rs))
    decreases |rs|
  {
    if |rs| > 0 && StartIndex(r) > StartIndex(rs[0]) {
      var tl := InsertByStart(r, rs[1..]);
      InsertByStartBag(r, rs[1..]);
      assert rs == [rs[0]] + rs[1..];
      assert Flatten(InsertByStart(r, rs)) == rs[0].cards + Flatten(tl);
    }
  }

  /** Every round of the insertion result starts no earlier than a bound the inputs respect. */
  lemma {:induction false} InsertByStartBound(r: Round, rs: seq<Round>, lo: int)
    requires lo <= StartIndex(r) && forall k :: 0 <= k < |rs| ==> lo <= StartIndex(rs[k])
    ensures forall k :: 0 <= k < |InsertByStart(r, rs)| ==> lo <= StartIndex(InsertByStart(r, rs)[k])
    decreases |rs|
  {
    if |rs| > 0 && StartIndex(r) > StartIndex(rs[0]) {
      InsertByStartBound(r, rs[1..], lo);
    }
  }

  lemma {:induction false} InsertByStartSorted(r: Round, rs: seq<Round>)
    requires SortedByStart(rs)
    ensures SortedByStart(InsertByStart(r, rs))
    decreases |rs|
  {
    if |rs| > 0 && StartIndex(r) > StartIndex(rs[0]) {
      var out := InsertByStart(r, rs);
      var tl := InsertByStart(r, rs[1..]);
      assert SortedByStart(rs[1..]) by {
        forall i, j | 0 <= i < j < |rs[1..]|
          ensures StartIndex(rs[1..][i]) <= StartIndex(rs[1..][j])
        {
          assert rs[1..][i] == rs[i + 1] && rs[1..][j] == rs[j + 1];
        }
      }
      InsertByStartSorted(r, rs[1..]);
      InsertByStartBound(r, rs[1..], StartIndex(rs[0]));
      assert out == [rs[0]] + tl;
      forall i, j | 0 <= i < j < |out|
        ensures StartIndex(out[i]) <= StartIndex(out[j])
      {
        assert out[j] == tl[j - 1];
        if i > 0 {
          assert out[i] == tl[i - 1];
        }
      }
    }
  }

  lemma {:induction false} InsertByStartPositions(r: Round, rs: seq<Round>)
    ensures RoundPositions(InsertByStart(r, rs)) == Positions(r.cards) + RoundPositions(rs)
    decreases |rs|
  {
    if |rs| == 0 || StartIndex(r) <= StartIndex(rs[0]) {
      RoundPositionsPrepend(r, rs);
    } else {
      var tl := InsertByStart(r, rs[1..]);
      InsertByStartPositions(r, rs[1..]);
      assert InsertByStart(r, rs) == [rs[0]] + tl;
      RoundPositionsPrepend(rs[0], tl);
      RoundPositionsUncons(rs);
      SetChain(RoundPositions(InsertByStart(r, rs)), Positions(rs[0].cards), RoundPositions(tl),
               Positions(r.cards), RoundPositions(rs[1..]), RoundPositions(rs));
    }
  }

  lemma RoundPositionsUncons(rs: seq<Round>)
    requires |rs| > 0
    ensures RoundPositions(rs) == Positions(rs[0].cards) + RoundPositions(rs[1..])
  {
    assert rs == [rs[0]] + rs[1..];
    RoundPositionsPrepend(rs[0], rs[1..]);
  }

  lemma SetChain<T>(x: set<T>, h: set<T>, t: set<T>, p: set<T>, rest: set<T>, all: set<T>)
    requires x == h + t && t == p + rest && all == h + rest
    ensures x == p + all
  {
  }

  lemma {:induction false} InsertByStartDisjoint(r: Round, rs: seq<Round>)
    requires PairwiseDisjoint(rs) && Positions(r.cards) !! RoundPositions(rs)
    ensures PairwiseDisjoint(InsertByStart(r, rs))
    decreases |rs|
  {
    if |rs| == 0 || StartIndex(r) <= StartIndex(rs[0]) {
      DisjointPrepend(r, rs);
    } else {
      var tl := InsertByStart(r, rs[1..]);
      assert rs == [rs[0]] + rs[1..];
      RoundPositionsPrepend(rs[0], rs[1..]);
      DisjointUncons(rs);
      InsertByStartDisjoint(r, rs[1..]);
      InsertByStartPositions(r, rs[1..]);
      assert InsertByStart(r, rs) == [rs[0]] + tl;
      DisjointPrepend(rs[0], tl);
    }
  }

  /** The sorted list holds the same rounds, and so the same cards. */
  lemma {:induction false} SortByStartBag(rs: seq<Round>)
    ensures multiset(SortByStart(rs)) == multiset(rs)
    ensures multiset(Flatten(SortByStart(rs))) == multiset(Flatten(rs))
  {
    if |rs| > 0 {
      var tl := SortByStart(rs[1..]);
      SortByStartBag(rs[1..]);
      InsertByStartBag(rs[0], tl);
      assert multiset(SortByStart(rs)) == multiset(rs) by {
        assert rs == [rs[0]] + rs[1..];
      }
    }
  }

  /** The sorted list is in start order. */
  lemma {:induction false} SortByStartSorted(rs: seq<Round>)
    ensures SortedByStart(SortByStart(rs))
  {
    if |rs| > 0 {
      SortByStartSorted(rs[1..]);
      InsertByStartSorted(rs[0], SortByStart(rs[1..]));
    }
  }

  /** The sorted list covers the same positions and stays disjoint. */
  lemma {:induction false} SortByStartPositions(rs: seq<Round>)
    ensures RoundPositions(SortByStart(rs)) == RoundPositions(rs)
    ensures PairwiseDisjoint(rs) ==> PairwiseDisjoint(SortByStart(rs))
  {
    if |rs| > 0 {
      var tl := SortByStart(rs[1..]);
      SortByStartPositions(rs[1..]);
      assert RoundPositions(SortByStart(rs)) == RoundPositions(rs) by {
        InsertByStartPositions(rs[0], tl);
        RoundPositionsUncons(rs);
      }
      if PairwiseDisjoint(rs) {
        assert PairwiseDisjoint(SortByStart(rs)) by {
          RoundPositionsUncons(rs);
          DisjointUncons(rs);
          InsertByStartDisjoint(rs[0], tl);
        }
      }
    }
  }
}

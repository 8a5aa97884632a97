// script.js `_suit_letter` / `_normalize_suit_input` and `_suit_counts`,
// and signals.js `computeDeckSummary`: suit spellings and the per-face
// tallies of a shoe's distinct cards.

module JsSuits {
  import opened Base
  import opened Cards
  import opened JsSegments
  import opened Suits
  import opened TSignalLogic

  // ---- _suit_letter / _normalize_suit_input ----

  function LetterChar(s: Suit): char
  {
    match s
    case Spade => 'S'
    case Heart => 'H'
    case Diamond => 'D'
    case Club => 'C'
  }

  /** The suit letter, "S", "H", "D" or "C". */
  function Letter(s: Suit): string
  {
    [LetterChar(s)]
  }

  /** The suit a one-letter text names, if any. */
  function LetterSuit(l: string): (o: Option<Suit>)
    ensures o.Some? ==> l == Letter(o.value)
  {
    if |l| != 1 then None
    else if l[0] == 'S' then Some(Spade) else if l[0] == 'H' then Some(Heart)
    else if l[0] == 'D' then Some(Diamond) else if l[0] == 'C' then Some(Club)
    else None
  }

  /** The suit a symbol names, if any. */
  function SymbolSuit(l: string): (o: Option<Suit>)
    ensures o.Some? ==> l == SuitSymbol(o.value)
  {
    if |l| != 1 then None
    else if l[0] == '♠' then Some(Spade) else if l[0] == '♥' then Some(Heart)
    else if l[0] == '♦' then Some(Diamond) else if l[0] == '♣' then Some(Club)
    else None
  }

  lemma SuitNames(s: Suit)
    ensures LetterSuit(Letter(s)) == Some(s)
    ensures SymbolSuit(SuitSymbol(s)) == Some(s)
    ensures LetterSuit(SuitSymbol(s)).None? && SymbolSuit(Letter(s)).None?
  {
    assert SuitSymbol(s) == match s case Spade => ['♠'] case Heart => ['♥'] case Diamond => ['♦'] case Club => ['♣'];
  }

  /** `SUIT_LETTER_TO_SYMBOL_APP[l]`. */
  function SymbolOfLetter(l: string): Option<string>
  {
    match LetterSuit(l)
    case Some(s) => Some(SuitSymbol(s))
    case None => None
  }

  /** `SUIT_SYMBOL_TO_LETTER_APP[s]`. */
  function LetterOfSymbol(s: string): Option<string>
  {
    match SymbolSuit(s)
    case Some(t) => Some(Letter(t))
    case None => None
  }

  /** `toUpperCase` on one character, for the ASCII letters. */
  function UpperChar(ch: char): char
  {
    if 'a' <= ch <= 'z' then (ch as int - 32) as char else ch
  }

  function Upper(s: string): (u: string)
    ensures |u| == |s| && forall i :: 0 <= i < |s| ==> u[i] == UpperChar(s[i])
  {
    seq(|s|, i requires 0 <= i < |s| => UpperChar(s[i]))
  }

  /**
    * `_suit_letter`: empty input gives ""; otherwise the trimmed text
    * upper-cased when that is a suit letter, else the letter of its suit
    * symbol, else the upper-cased text itself.
    */
  function SuitLetter(val: string): string
  {
    if |val| == 0 then ""
    else
      var s := Trim(val);
      if |s| == 0 then ""
      else
        var upper := Upper(s);
        if SymbolOfLetter(upper).Some? then upper
        else if LetterOfSymbol(s).Some? then LetterOfSymbol(s).value
        else if LetterOfSymbol(upper).Some? then LetterOfSymbol(upper).value
        else upper
  }

  /**
    * `_normalize_suit_input`: `None` (the source's `null`) for empty input,
    * otherwise the symbol of the suit letter, or the letter text itself.
    */
  function NormalizeSuitInput(val: string): Option<string>
  {
    if |val| == 0 then None
    else
      var letter := SuitLetter(val);
      Some(if SymbolOfLetter(letter).Some? then SymbolOfLetter(letter).value else letter)
  }

  function LowerChar(ch: char): char
  {
    if 'A' <= ch <= 'Z' then (ch as int + 32) as char else ch
  }

  /** A text with no white character at either end is its own trim. */
  lemma TrimOfTrimmed(t: string)
    requires |t| > 0 && !IsWhite(t[0]) && !IsWhite(t[|t| - 1])
    ensures Trim(t) == t
  {
    assert Lead(t) == 0;
    assert t[0..] == t;
    assert Trail(t) == 0;
  }

  /** `_suit_letter` of a one-character text that is not white. */
  lemma SuitLetterOneChar(ch: char)
    requires !IsWhite(ch)
    ensures SuitLetter([ch]) ==
              var upper := [UpperChar(ch)];
              if SymbolOfLetter(upper).Some? then upper
              else if LetterOfSymbol([ch]).Some? then LetterOfSymbol([ch]).value
              else if LetterOfSymbol(upper).Some? then LetterOfSymbol(upper).value
              else upper
  {
    TrimOfTrimmed([ch]);
    assert Upper([ch]) == [UpperChar(ch)];
  }

  /** Every spelling of a suit — symbol, letter, lower-case letter — reads as its letter. */
  lemma SuitLetterOfSuit(s: Suit)
    ensures SuitLetter(SuitSymbol(s)) == Letter(s)
    ensures SuitLetter(Letter(s)) == Letter(s)
    ensures SuitLetter([LowerChar(LetterChar(s))]) == Letter(s)
  {
    SymbolReadsAsLetter(s);
    LetterReadsAsLetter(s);
    LowerReadsAsLetter(s);
  }

  lemma SymbolReadsAsLetter(s: Suit)
    ensures SuitLetter(SuitSymbol(s)) == Letter(s)
  {
    SuitNames(s);
    var sym := SuitSymbol(s)[0];
    assert SuitSymbol(s) == [sym];
    SuitLetterOneChar(sym);
    assert [UpperChar(sym)] == SuitSymbol(s);
  }

  lemma LetterReadsAsLetter(s: Suit)
    ensures SuitLetter(Letter(s)) == Letter(s)
  {
    SuitNames(s);
    SuitLetterOneChar(LetterChar(s));
  }

  lemma LowerReadsAsLetter(s: Suit)
    ensures SuitLetter([LowerChar(LetterChar(s))]) == Letter(s)
  {
    SuitNames(s);
    SuitLetterOneChar(LowerChar(LetterChar(s)));
    assert UpperChar(LowerChar(LetterChar(s))) == LetterChar(s);
  }

  /** Every spelling of a suit normalises to its symbol. */
  lemma NormalizeOfSuit(s: Suit)
    ensures NormalizeSuitInput(SuitSymbol(s)) == Some(SuitSymbol(s))
    ensures NormalizeSuitInput(Letter(s)) == Some(SuitSymbol(s))
    ensures NormalizeSuitInput([LowerChar(LetterChar(s))]) == Some(SuitSymbol(s))
  {
    SuitLetterOfSuit(s);
    SuitNames(s);
  }

  lemma UpperKeepsWhite(s: string)
    ensures forall i :: 0 <= i < |s| ==> (IsWhite(Upper(s)[i]) <==> IsWhite(s[i]))
    ensures Upper(Upper(s)) == Upper(s)
  {
  }

  /** `_suit_letter` of its own result changes nothing. */
  lemma SuitLetterIdempotent(val: string)
    ensures SuitLetter(SuitLetter(val)) == SuitLetter(val)
  {
    if |val| > 0 && |Trim(val)| > 0 {
      var s := Trim(val);
      var upper := Upper(s);
      UpperKeepsWhite(s);
      if SymbolOfLetter(upper).Some? {
        SuitLetterOfSuit(LetterSuit(upper).value);
      } else if LetterOfSymbol(s).Some? {
        SuitLetterOfSuit(SymbolSuit(s).value);
      } else if LetterOfSymbol(upper).Some? {
        SuitLetterOfSuit(SymbolSuit(upper).value);
      } else {
        TrimOfTrimmed(upper);
        assert SuitLetter(val) == upper;
      }
    }
  }

  /** A non-empty normal form normalises to itself. */
  lemma NormalizeIdempotent(val: string)
    requires NormalizeSuitInput(val).Some? && |NormalizeSuitInput(val).value| > 0
    ensures NormalizeSuitInput(NormalizeSuitInput(val).value) == NormalizeSuitInput(val)
  {
    var letter := SuitLetter(val);
    SuitLetterIdempotent(val);
    if SymbolOfLetter(letter).Some? {
      NormalizeOfSuit(LetterSuit(letter).value);
    }
  }

  // ---- _suit_counts / computeDeckSummary ----

  datatype SuitCounts = SuitCounts(
    byRankSuit: map<(Rank, Suit), nat>,
    suitTotals: map<Suit, nat>,
    cardsByRankSuit: map<(Rank, Suit), seq<Card>>)

  /** The cards of face `f`, in order. */
  function OfFace(cs: seq<Card>, f: (Rank, Suit)): (r: seq<Card>)
    ensures forall c :: c in r ==> c in cs && Face(c) == f
  {
    if |cs| == 0 then []
    else OfFace(cs[..|cs| - 1], f) + (if Face(cs[|cs| - 1]) == f then [cs[|cs| - 1]] else [])
  }

  /** How many cards of face `f` there are is the multiplicity of `f` among the faces. */
  lemma {:induction false} OfFaceCount(cs: seq<Card>, f: (Rank, Suit))
    ensures |OfFace(cs, f)| == multiset(Faces(cs))[f]
  {
    if |cs| > 0 {
      var init := cs[..|cs| - 1];
      OfFaceCount(init, f);
      assert Faces(cs) == Faces(init) + [Face(cs[|cs| - 1])];
    }
  }

  /** The face counts describe the cards `cs`. */
  ghost predicate CountsFaces(m: map<(Rank, Suit), nat>, cs: seq<Card>)
  {
    (forall f :: f in m <==> |OfFace(cs, f)| > 0)
    && (forall f :: f in m ==> m[f] == |OfFace(cs, f)|)
  }

  /** The face groups are the cards `cs` of each face, in order. */
  ghost predicate GroupsFaces(m: map<(Rank, Suit), seq<Card>>, cs: seq<Card>)
  {
    (forall f :: f in m <==> |OfFace(cs, f)| > 0)
    && (forall f :: f in m ==> m[f] == OfFace(cs, f))
  }

  /** The suit totals count the cards `cs` of each suit. */
  ghost predicate CountsSuits(m: map<Suit, nat>, cs: seq<Card>)
  {
    (forall s :: s in m <==> CountSuit(cs, s) > 0)
    && (forall s :: s in m ==> m[s] == CountSuit(cs, s))
  }

  /** The tallies describe the cards `cs`. */
  ghost predicate Describes(t: SuitCounts, cs: seq<Card>)
  {
    CountsFaces(t.byRankSuit, cs) && GroupsFaces(t.cardsByRankSuit, cs) && CountsSuits(t.suitTotals, cs)
  }

  lemma CountSuitSnoc(cs: seq<Card>, c: Card, s: Suit)
    ensures CountSuit(cs + [c], s) == CountSuit(cs, s) + (if c.suit == s then 1 else 0)
  {
    assert SuitsOf(cs + [c]) == SuitsOf(cs) + [c.suit];
  }

  /** One more card counted: its face count, its suit total and its face group grow by one. */
  function AddCard(t: SuitCounts, card: Card): SuitCounts
  {
    var key := (card.rank, card.suit);
    var n := if key in t.byRankSuit then t.byRankSuit[key] else 0;
    var group := if key in t.cardsByRankSuit then t.cardsByRankSuit[key] else [];
    var total := if card.suit in t.suitTotals then t.suitTotals[card.suit] else 0;
    SuitCounts(t.byRankSuit[key := n + 1], t.suitTotals[card.suit := total + 1],
               t.cardsByRankSuit[key := group + [card]])
  }

  lemma OfFaceSnoc(cs: seq<Card>, card: Card, f: (Rank, Suit))
    ensures OfFace(cs + [card], f) == OfFace(cs, f) + (if Face(card) == f then [card] else [])
  {
    assert (cs + [card])[..|cs|] == cs;
  }

  lemma AddCardCounts(m: map<(Rank, Suit), nat>, cs: seq<Card>, card: Card)
    requires CountsFaces(m, cs)
    ensures CountsFaces(m[Face(card) := if Face(card) in m then m[Face(card)] + 1 else 1], cs + [card])
  {
    var m' := m[Face(card) := if Face(card) in m then m[Face(card)] + 1 else 1];
    forall f
      ensures (f in m' <==> |OfFace(cs + [card], f)| > 0)
      ensures f in m' ==> m'[f] == |OfFace(cs + [card], f)|
    {
      OfFaceSnoc(cs, card, f);
      if f == Face(card) {
        assert |OfFace(cs + [card], f)| == |OfFace(cs, f)| + 1;
      } else {
        assert OfFace(cs + [card], f) == OfFace(cs, f);
      }
    }
  }

  lemma AddCardGroups(m: map<(Rank, Suit), seq<Card>>, cs: seq<Card>, card: Card)
    requires GroupsFaces(m, cs)
    ensures GroupsFaces(m[Face(card) := (if Face(card) in m then m[Face(card)] else []) + [card]], cs + [card])
  {
    var m' := m[Face(card) := (if Face(card) in m then m[Face(card)] else []) + [card]];
    forall f
      ensures f in m' <==> |OfFace(cs + [card], f)| > 0
      ensures f in m' ==> m'[f] == OfFace(cs + [card], f)
    {
      OfFaceSnoc(cs, card, f);
      if f == Face(card) {
        assert m'[f] == OfFace(cs, f) + [card];
      } else {
        assert OfFace(cs + [card], f) == OfFace(cs, f);
      }
    }
  }

  lemma AddCardSuits(m: map<Suit, nat>, cs: seq<Card>, card: Card)
    requires CountsSuits(m, cs)
    ensures CountsSuits(m[card.suit := if card.suit in m then m[card.suit] + 1 else 1], cs + [card])
  {
    forall s
      ensures CountSuit(cs + [card], s) == CountSuit(cs, s) + (if card.suit == s then 1 else 0)
    {
      CountSuitSnoc(cs, card, s);
    }
  }

  lemma AddCardDescribes(t: SuitCounts, cs: seq<Card>, card: Card)
    requires Describes(t, cs)
    ensures Describes(AddCard(t, card), cs + [card])
  {
    var t', cs' := AddCard(t, card), cs + [card];
    assert Face(card) == (card.rank, card.suit);
    assert CountsFaces(t'.byRankSuit, cs') by {
      AddCardCounts(t.byRankSuit, cs, card);
    }
    assert GroupsFaces(t'.cardsByRankSuit, cs') by {
      AddCardGroups(t.cardsByRankSuit, cs, card);
    }
    assert CountsSuits(t'.suitTotals, cs') by {
      AddCardSuits(t.suitTotals, cs, card);
    }
  }

  /** The tallies of `cs`, counted from the first card to the last. */
  function TallyOf(cs: seq<Card>): SuitCounts
  {
    if |cs| == 0 then SuitCounts(map[], map[], map[])
    else AddCard(TallyOf(cs[..|cs| - 1]), cs[|cs| - 1])
  }

  /** Counting card by card yields tallies that describe the cards. */
  lemma {:induction false} TallyOfDescribes(cs: seq<Card>)
    ensures Describes(TallyOf(cs), cs)
  {
    if |cs| > 0 {
      var init := cs[..|cs| - 1];
      TallyOfDescribes(init);
      AddCardDescribes(TallyOf(init), init, cs[|cs| - 1]);
      assert init + [cs[|cs| - 1]] == cs;
    }
  }

  /** The three tallies, one card at a time, as the source's loops keep them. */
  method Tally(cs: seq<Card>) returns (t: SuitCounts)
    ensures t == TallyOf(cs) && Describes(t, cs)
  {
    t := SuitCounts(map[], map[], map[]);
    for k := 0 to |cs|
      invariant t == TallyOf(cs[..k])
    {
      assert cs[..k + 1][..k] == cs[..k];
      t := AddCard(t, cs[k]);
    }
    assert cs[..|cs|] == cs;
    TallyOfDescribes(cs);
  }

  /** The four suit totals add up to the number of cards. */
  lemma {:induction false} SuitTotalsSum(cs: seq<Card>)
    ensures CountSuit(cs, Spade) + CountSuit(cs, Heart) + CountSuit(cs, Diamond) + CountSuit(cs, Club) == |cs|
  {
    if |cs| > 0 {
      SuitTotalsSum(cs[1..]);
      assert SuitsOf(cs) == [cs[0].suit] + SuitsOf(cs[1..]);
    }
  }

  /**
    * `_suit_counts`: the cards of the rounds and then of the tail, each
    * position counted once (the first card seen), tallied per face and per
    * suit.
    */
  method SuitCountsOf(rounds: seq<Round>, tail: seq<Card>) returns (unique: seq<Card>, t: SuitCounts)
    ensures unique == FreshCards(Flatten(rounds) + tail, {})
    ensures DistinctPositions(unique) && Positions(unique) == Positions(Flatten(rounds) + tail)
    ensures Describes(t, unique)
  {
    unique := DedupByPos(Flatten(rounds) + tail, {});
    t := Tally(unique);
    assert Positions(unique) == Positions(Flatten(rounds) + tail);
  }

  datatype DeckSummary = DeckSummary(counts: SuitCounts, totalCards: nat)

  /**
    * `computeDeckSummary`: nothing for an empty round list; otherwise the
    * same tallies over the rounds' distinct cards, and how many there are.
    */
  method ComputeDeckSummary(rounds: seq<Round>) returns (summary: Option<DeckSummary>)
    ensures summary.None? <==> |rounds| == 0
    ensures summary.Some? ==>
              var unique := FreshCards(Flatten(rounds), {});
              Describes(summary.value.counts, unique) && summary.value.totalCards == |unique|
              && DistinctPositions(unique) && Positions(unique) == Positions(Flatten(rounds))
  {
    if |rounds| == 0 {
      return None;
    }
    var unique, t := SuitCountsOf(rounds, []);
    assert Flatten(rounds) + [] == Flatten(rounds);
    summary := Some(DeckSummary(t, |unique|));
  }

  /**
    * In a summary the suit totals add up to the card total, and each face
    * count is the multiplicity of that face among the distinct cards.
    */
  lemma SummaryConsistent(rounds: seq<Round>, summary: DeckSummary)
    requires Describes(summary.counts, FreshCards(Flatten(rounds), {}))
    requires summary.totalCards == |FreshCards(Flatten(rounds), {})|
    ensures (if Spade in summary.counts.suitTotals then summary.counts.suitTotals[Spade] else 0)
            + (if Heart in summary.counts.suitTotals then summary.counts.suitTotals[Heart] else 0)
            + (if Diamond in summary.counts.suitTotals then summary.counts.suitTotals[Diamond] else 0)
            + (if Club in summary.counts.suitTotals then summary.counts.suitTotals[Club] else 0)
            == summary.totalCards
    ensures forall f :: f in summary.counts.byRankSuit ==>
              summary.counts.byRankSuit[f] == multiset(Faces(FreshCards(Flatten(rounds), {})))[f]
  {
    var unique := FreshCards(Flatten(rounds), {});
    SuitTotalsSum(unique);
    forall f | f in summary.counts.byRankSuit
      ensures summary.counts.byRankSuit[f] == multiset(Faces(unique))[f]
    {
      OfFaceCount(unique, f);
    }
  }
}
